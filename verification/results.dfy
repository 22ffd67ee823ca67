/**
 * The splitting of a column of the results sheet into its blocks: blank or
 * missing cells separate the blocks, and each value is converted on the way.
 */
module Results {

  /** A cell of a results column: an empty string, a missing value, or a datum. */
  datatype Cell<T> = Blank | Missing | Datum(value: T)

  /** The data of a column with the separators removed, in order. */
  function Datums<T>(data: seq<Cell<T>>): (d: seq<T>)
    ensures |d| <= |data|
  {
    if |data| == 0 then []
    else Datums(data[..|data| - 1]) + (if data[|data| - 1].Datum? then [data[|data| - 1].value] else [])
  }

  /** Whether a datum starts a block: it is first, or follows a separator. */
  predicate StartsRun<T>(data: seq<Cell<T>>, i: nat)
    requires i < |data|
  {
    data[i].Datum? && (i == 0 || !data[i - 1].Datum?)
  }

  /** The number of maximal separator-free blocks. */
  function Runs<T>(data: seq<Cell<T>>): nat
  {
    if |data| == 0 then 0
    else Runs(data[..|data| - 1]) + (if StartsRun(data, |data| - 1) then 1 else 0)
  }

  /** One more cell: a separator changes nothing, a datum opens a block or extends the last one. */
  function AddCell<T>(blocks: seq<seq<T>>, c: Cell<T>, starts: bool): seq<seq<T>>
    requires c.Datum? && !starts ==> |blocks| > 0
  {
    if !c.Datum? then blocks
    else if starts then blocks + [[c.value]]
    else blocks[..|blocks| - 1] + [blocks[|blocks| - 1] + [c.value]]
  }

  /** The maximal separator-free blocks of a column, built cell by cell from the left. */
  function Blocks<T>(data: seq<Cell<T>>): (b: seq<seq<T>>)
    ensures |b| == Runs(data)
    ensures forall k :: 0 <= k < |b| ==> |b[k]| > 0
    ensures |data| > 0 && data[|data| - 1].Datum? ==> |b| > 0
  {
    if |data| == 0 then []
    else AddCell(Blocks(data[..|data| - 1]), data[|data| - 1], StartsRun(data, |data| - 1))
  }

  function Flatten<T>(groups: seq<seq<T>>): seq<T>
  {
    if |groups| == 0 then [] else Flatten(groups[..|groups| - 1]) + groups[|groups| - 1]
  }

  function Convert<T, U>(s: seq<T>, conv: T -> U): (r: seq<U>)
    ensures |r| == |s| && forall i :: 0 <= i < |s| ==> r[i] == conv(s[i])
  {
    seq(|s|, i requires 0 <= i < |s| => conv(s[i]))
  }

  lemma {:induction false} ConvertAppend<T, U>(a: seq<T>, b: seq<T>, conv: T -> U)
    ensures Convert(a + b, conv) == Convert(a, conv) + Convert(b, conv)
  {
  }

  lemma {:induction false} FlattenConvert<T, U>(groups: seq<seq<T>>, conv: T -> U)
    ensures Flatten(seq(|groups|, k requires 0 <= k < |groups| => Convert(groups[k], conv)))
         == Convert(Flatten(groups), conv)
  {
    var converted := seq(|groups|, k requires 0 <= k < |groups| => Convert(groups[k], conv));
    if |groups| > 0 {
      var init := groups[..|groups| - 1];
      assert converted[..|groups| - 1] == seq(|init|, k requires 0 <= k < |init| => Convert(init[k], conv));
      FlattenConvert(init, conv);
      ConvertAppend(Flatten(init), groups[|groups| - 1], conv);
    }
  }

  lemma FlattenSnoc<T>(groups: seq<seq<T>>, g: seq<T>)
    ensures Flatten(groups + [g]) == Flatten(groups) + g
  {
    assert (groups + [g])[..|groups|] == groups;
  }

  /** Laying out the blocks again gives the data without the separators. */
  lemma {:induction false} FlattenBlocks<T>(data: seq<Cell<T>>)
    ensures Flatten(Blocks(data)) == Datums(data)
  {
    if |data| > 0 {
      var n := |data|;
      var b := Blocks(data[..n - 1]);
      FlattenBlocks(data[..n - 1]);
      if data[n - 1].Datum? {
        if StartsRun(data, n - 1) {
          FlattenSnoc(b, [data[n - 1].value]);
        } else {
          var init := b[..|b| - 1];
          assert b == init + [b[|b| - 1]];
          FlattenSnoc(init, b[|b| - 1]);
          FlattenSnoc(init, b[|b| - 1] + [data[n - 1].value]);
        }
      }
    }
  }

  lemma DatumsSnoc<T>(data: seq<Cell<T>>, i: nat)
    requires i < |data|
    ensures Datums(data[..i + 1]) == Datums(data[..i]) + (if data[i].Datum? then [data[i].value] else [])
    ensures Runs(data[..i + 1]) == Runs(data[..i]) + (if StartsRun(data, i) then 1 else 0)
    ensures data[i].Datum? && !StartsRun(data, i) ==> |Blocks(data[..i])| > 0
    ensures Blocks(data[..i + 1]) == AddCell(Blocks(data[..i]), data[i], StartsRun(data, i))
  {
    assert data[..i + 1][..i] == data[..i];
    assert StartsRun(data[..i + 1], i) == StartsRun(data, i);
  }

  /** Without separators every cell is a datum in order. */
  lemma {:induction false} DatumsOfData<T>(data: seq<Cell<T>>)
    requires forall i :: 0 <= i < |data| ==> data[i].Datum?
    ensures Datums(data) == seq(|data|, i requires 0 <= i < |data| => data[i].value)
  {
    if |data| > 0 {
      DatumsOfData(data[..|data| - 1]);
    }
  }

  /** Without separators a non-empty column is a single block. */
  lemma {:induction false} RunsOfData<T>(data: seq<Cell<T>>)
    requires forall i :: 0 <= i < |data| ==> data[i].Datum?
    ensures Runs(data) == if |data| == 0 then 0 else 1
  {
    if |data| > 0 {
      RunsOfData(data[..|data| - 1]);
    }
  }

  /** Only separators: no data and no block. */
  lemma {:induction false} AllSeparators<T>(data: seq<Cell<T>>)
    requires forall i :: 0 <= i < |data| ==> !data[i].Datum?
    ensures Datums(data) == [] && Runs(data) == 0
  {
    if |data| > 0 {
      AllSeparators(data[..|data| - 1]);
    }
  }

  lemma OneBlock<T, U>(data: seq<Cell<T>>, groups: seq<seq<U>>, conv: T -> U)
    requires forall i :: 0 <= i < |data| ==> data[i].Datum?
    requires |groups| == 1 && Flatten(groups) == Convert(Datums(data), conv)
    ensures groups == [seq(|data|, i requires 0 <= i < |data| => conv(data[i].value))]
  {
    DatumsOfData(data);
    var d := Datums(data);
    assert Flatten(groups[..0]) == [];
    assert groups[0] == Convert(d, conv);
    var expected := seq(|data|, i requires 0 <= i < |data| => conv(data[i].value));
    forall i | 0 <= i < |data|
      ensures groups[0][i] == expected[i]
    {
      assert d[i] == data[i].value;
    }
    assert groups[0] == expected;
    assert groups == [groups[0]];
  }

  /**
   * Splits a column at its blank and missing cells, dropping empty blocks,
   * and converts every datum.
   */
  method SplitOnEmpty<T, U>(data: seq<Cell<T>>, conv: T -> U) returns (groups: seq<seq<U>>)
    ensures forall k :: 0 <= k < |groups| ==> |groups[k]| > 0
    ensures |groups| == |Blocks(data)| && forall k :: 0 <= k < |groups| ==> groups[k] == Convert(Blocks(data)[k], conv)
    ensures Flatten(groups) == Convert(Datums(data), conv)
    ensures |groups| == Runs(data)
    ensures (forall i :: 0 <= i < |data| ==> !data[i].Datum?) ==> groups == []
    ensures |data| > 0 && (forall i :: 0 <= i < |data| ==> data[i].Datum?) ==>
      groups == [seq(|data|, i requires 0 <= i < |data| => conv(data[i].value))]
  {
    var raw := SplitRaw(data);
    groups := seq(|raw|, k requires 0 <= k < |raw| => Convert(raw[k], conv));
    FlattenConvert(raw, conv);
    if forall i :: 0 <= i < |data| ==> !data[i].Datum? {
      AllSeparators(data);
    }
    if |data| > 0 && forall i :: 0 <= i < |data| ==> data[i].Datum? {
      RunsOfData(data);
      OneBlock(data, groups, conv);
    }
  }

  /** The blocks so far: the closed ones, then the open one if it holds anything. */
  function Open<T>(raw: seq<seq<T>>, current: seq<T>): seq<seq<T>>
  {
    raw + (if |current| > 0 then [current] else [])
  }

  /** A separator leaves the blocks as they are; a datum joins the open block or opens one. */
  lemma SplitStep<T>(data: seq<Cell<T>>, i: nat, raw: seq<seq<T>>, current: seq<T>)
    requires i < |data| && Open(raw, current) == Blocks(data[..i])
    requires |current| > 0 <==> i > 0 && data[i - 1].Datum?
    ensures !data[i].Datum? ==> Blocks(data[..i + 1]) == Open(raw, current)
    ensures data[i].Datum? ==> Blocks(data[..i + 1]) == raw + [current + [data[i].value]]
  {
    DatumsSnoc(data, i);
    assert StartsRun(data, i) <==> data[i].Datum? && |current| == 0;
    if data[i].Datum? && |current| > 0 {
      var before := raw + [current];
      assert before[..|before| - 1] == raw;
    } else if data[i].Datum? {
      assert Open(raw, current) == raw && current + [data[i].value] == [data[i].value];
    }
  }

  /** The blocks before conversion. */
  method SplitRaw<T>(data: seq<Cell<T>>) returns (raw: seq<seq<T>>)
    ensures raw == Blocks(data)
    ensures forall k :: 0 <= k < |raw| ==> |raw[k]| > 0
    ensures Flatten(raw) == Datums(data)
    ensures |raw| == Runs(data)
  {
    raw := [];
    var current: seq<T> := [];
    var i := 0;
    while i < |data|
      invariant i <= |data|
      invariant Open(raw, current) == Blocks(data[..i])
      invariant |current| > 0 <==> i > 0 && data[i - 1].Datum?
    {
      SplitStep(data, i, raw, current);
      if !data[i].Datum? {
        if |current| > 0 {
          raw := raw + [current];
          current := [];
        }
      } else {
        current := current + [data[i].value];
      }
      i := i + 1;
    }
    if |current| > 0 {
      raw := raw + [current];
    }
    assert data[..|data|] == data;
    FlattenBlocks(data);
  }
}
