/**
 * Duplicate detection over the national dataset's `hex_id` column: count every
 * id in one forward pass, keep the ids seen more than once, persist them as
 * `id,count` lines and read them back, and fetch the full rows of those ids in
 * batches. The database is a function from query text to its answer.
 */
module DuplicateFinder {
  import opened Wrappers
  import PyInt
  import CsvReader

  /** A spatial-index cell identifier, an opaque token. */
  type HexId = string

  /** Ids per `SELECT ... WHERE hex_id IN (...)` batch. */
  const RowsBatchSize: nat := 10000

  /** One `(hex_id, count)` pair. */
  datatype Entry = Entry(hexId: HexId, count: int)

  /**
   * A Python dict from id to count: its keys in insertion order (the order
   * `items()` visits them in) and the mapping itself.
   */
  datatype IdCount = IdCount(keys: seq<HexId>, counts: map<HexId, int>) {
    /** Each key is listed once, and the listed keys are exactly the mapped ones. */
    predicate Valid() {
      && Distinct(keys)
      && counts.Keys == set k | k in keys
    }

    /** `d[k] = d.get(k, 0) + 1`: a present key keeps its place, a new key goes last. */
    function Increment(k: HexId): IdCount {
      if k in counts then IdCount(keys, counts[k := counts[k] + 1])
      else IdCount(keys + [k], counts[k := 1])
    }
  }

  /** How many times `x` occurs in `s`. */
  function Occurrences<T(==)>(s: seq<T>, x: T): nat {
    if s == [] then 0
    else Occurrences(s[..|s| - 1], x) + (if s[|s| - 1] == x then 1 else 0)
  }

  /** The position of the first occurrence of `x` in `s`. */
  function FirstIndex<T(==)>(s: seq<T>, x: T): (i: nat)
    requires x in s
    ensures i < |s| && s[i] == x && x !in s[..i]
  {
    if s[0] == x then 0 else 1 + FirstIndex(s[1..], x)
  }

  /** The sum of the counts of `keys`. */
  function Total(keys: seq<HexId>, counts: map<HexId, int>): int
    requires forall i :: 0 <= i < |keys| ==> keys[i] in counts
  {
    if keys == [] then 0
    else Total(keys[..|keys| - 1], counts) + counts[keys[|keys| - 1]]
  }

  /** The dict that counting the ids of `s`, in order, builds. */
  function Tally(s: seq<HexId>): (d: IdCount)
    ensures d.Valid()
  {
    if s == [] then IdCount([], map[])
    else Tally(s[..|s| - 1]).Increment(s[|s| - 1])
  }

  /**
   * `get_hex_ids`: one forward pass over the `hex_id` of every record, counting
   * each id; `count` is the running number of records read.
   */
  method GetHexIds(records: seq<HexId>) returns (hexIdCount: IdCount, count: nat)
    ensures hexIdCount == Tally(records)
    ensures count == |records|
  {
    hexIdCount := IdCount([], map[]);
    count := 0;
    while count < |records|
      invariant count <= |records|
      invariant hexIdCount == Tally(records[..count])
    {
      var hexId := records[count];
      hexIdCount := hexIdCount.Increment(hexId);
      count := count + 1;
      assert records[..count][..count - 1] == records[..count - 1];
    }
    assert records[..count] == records;
  }

  lemma SplitLast<T>(s: seq<T>)
    requires s != []
    ensures s == s[..|s| - 1] + [s[|s| - 1]]
  {
  }

  /** The counting dict is a well-formed dict whose keys are exactly the ids seen. */
  lemma {:induction false} TallyValid(s: seq<HexId>)
    ensures Tally(s).Valid()
    ensures forall x :: x in Tally(s).counts <==> x in s
  {
    if s != [] {
      var init := s[..|s| - 1];
      TallyValid(init);
      SplitLast(s);
      forall x ensures x in s <==> x in init || x == s[|s| - 1] {
        if x in s {
          var i :| 0 <= i < |s| && s[i] == x;
          if i < |s| - 1 { assert init[i] == x; }
        }
      }
    }
  }

  /** Each id's count is the number of times it occurs in the stream. */
  lemma {:induction false} TallyCounts(s: seq<HexId>, x: HexId)
    ensures x in Tally(s).counts ==> Tally(s).counts[x] == Occurrences(s, x)
    ensures x !in Tally(s).counts ==> Occurrences(s, x) == 0
  {
    if s != [] {
      TallyCounts(s[..|s| - 1], x);
    }
  }

  lemma {:induction false} OccurrencesPositive<T>(s: seq<T>, x: T)
    requires x in s
    ensures Occurrences(s, x) >= 1
  {
    if s[|s| - 1] != x {
      var i :| 0 <= i < |s| && s[i] == x;
      assert s[..|s| - 1][i] == x;
      OccurrencesPositive(s[..|s| - 1], x);
    }
  }

  /** Every counted id was seen at least once. */
  lemma TallyPositive(s: seq<HexId>, x: HexId)
    requires x in Tally(s).counts
    ensures Tally(s).counts[x] >= 1
  {
    TallyValid(s);
    TallyCounts(s, x);
    OccurrencesPositive(s, x);
  }

  lemma {:induction false} TotalUnrelated(keys: seq<HexId>, counts: map<HexId, int>, k: HexId, v: int)
    requires forall i :: 0 <= i < |keys| ==> keys[i] in counts
    requires k !in keys
    ensures Total(keys, counts[k := v]) == Total(keys, counts)
  {
    if keys != [] {
      TotalUnrelated(keys[..|keys| - 1], counts, k, v);
    }
  }

  lemma {:induction false} TotalIncrement(keys: seq<HexId>, counts: map<HexId, int>, k: HexId)
    requires forall i :: 0 <= i < |keys| ==> keys[i] in counts
    requires Distinct(keys)
    requires k in keys
    ensures Total(keys, counts[k := counts[k] + 1]) == Total(keys, counts) + 1
  {
    var init := keys[..|keys| - 1];
    if keys[|keys| - 1] == k {
      assert k !in init;
      TotalUnrelated(init, counts, k, counts[k] + 1);
    } else {
      var i :| 0 <= i < |keys| && keys[i] == k;
      assert init[i] == k;
      TotalIncrement(init, counts, k);
    }
  }

  lemma KeysOfValid(d: IdCount, x: HexId)
    requires d.Valid()
    ensures x in d.counts <==> x in d.keys
  {
  }

  /** Counting one more id adds one to the total. */
  lemma TotalAfterIncrement(d: IdCount, x: HexId)
    requires Distinct(d.keys)
    requires x in d.counts <==> x in d.keys
    requires forall i :: 0 <= i < |d.keys| ==> d.keys[i] in d.counts
    ensures forall i :: 0 <= i < |d.Increment(x).keys| ==> d.Increment(x).keys[i] in d.Increment(x).counts
    ensures Total(d.Increment(x).keys, d.Increment(x).counts) == Total(d.keys, d.counts) + 1
  {
    if x in d.counts {
      assert d.Increment(x) == IdCount(d.keys, d.counts[x := d.counts[x] + 1]);
      TotalIncrement(d.keys, d.counts, x);
    } else {
      var keys, counts := d.keys + [x], d.counts[x := 1];
      assert d.Increment(x) == IdCount(keys, counts);
      TotalUnrelated(d.keys, d.counts, x, 1);
      assert keys[..|keys| - 1] == d.keys;
      assert Total(keys, counts) == Total(d.keys, counts) + counts[x];
    }
  }

  /** The counts add up to the number of records read. */
  lemma {:induction false} TallyTotal(s: seq<HexId>)
    ensures forall i :: 0 <= i < |Tally(s).keys| ==> Tally(s).keys[i] in Tally(s).counts
    ensures Total(Tally(s).keys, Tally(s).counts) == |s|
  {
    if s != [] {
      var d := Tally(s[..|s| - 1]);
      TallyTotal(s[..|s| - 1]);
      KeysOfValid(d, s[|s| - 1]);
      TotalAfterIncrement(d, s[|s| - 1]);
    }
  }

  lemma {:induction false} FirstIndexExtend<T>(s: seq<T>, t: seq<T>, x: T)
    requires x in s
    ensures FirstIndex(s + t, x) == FirstIndex(s, x)
  {
    assert (s + t)[0] == s[0];
    if s[0] != x {
      assert (s + t)[1..] == s[1..] + t;
      FirstIndexExtend(s[1..], t, x);
    }
  }

  lemma FirstIndexLast<T>(s: seq<T>, x: T)
    requires x !in s
    ensures FirstIndex(s + [x], x) == |s|
  {
  }

  /** Every key of `ks` occurs in `s`, and the keys are listed in order of their first occurrence. */
  predicate FirstSeenOrdered<T(==)>(s: seq<T>, ks: seq<T>) {
    && (forall k :: k in ks ==> k in s)
    && (forall i, j :: 0 <= i < j < |ks| ==> ks[i] in s && ks[j] in s && FirstIndex(s, ks[i]) < FirstIndex(s, ks[j]))
  }

  /** The dict lists the ids in the order of their first occurrence in the stream. */
  lemma {:induction false} TallyFirstSeenOrder(s: seq<HexId>)
    ensures FirstSeenOrdered(s, Tally(s).keys)
  {
    if s != [] {
      var init := s[..|s| - 1];
      var x := s[|s| - 1];
      var d := Tally(init);
      TallyFirstSeenOrder(init);
      KeysOfValid(d, x);
      SplitLast(s);
      if x in d.counts {
        OrderExtends(init, d.keys, x);
      } else {
        TallyValid(init);
        OrderExtendsNew(init, d.keys, x);
      }
    }
  }

  lemma OrderExtends<T>(s: seq<T>, ks: seq<T>, x: T)
    requires FirstSeenOrdered(s, ks)
    ensures FirstSeenOrdered(s + [x], ks)
  {
    forall k | k in ks ensures FirstIndex(s + [x], k) == FirstIndex(s, k) {
      FirstIndexExtend(s, [x], k);
    }
  }

  lemma OrderExtendsNew<T>(s: seq<T>, ks: seq<T>, x: T)
    requires FirstSeenOrdered(s, ks) && x !in s
    ensures FirstSeenOrdered(s + [x], ks + [x])
  {
    OrderExtends(s, ks, x);
    FirstIndexLast(s, x);
    var ks' := ks + [x];
    forall i, j | 0 <= i < j < |ks'| ensures FirstIndex(s + [x], ks'[i]) < FirstIndex(s + [x], ks'[j]) {
      assert ks'[i] == ks[i];
      if j < |ks| {
        assert ks'[j] == ks[j];
      }
    }
  }

  /** The `(id, count)` pairs of the listed keys whose count exceeds one, in key order. */
  function DuplicatesOf(keys: seq<HexId>, counts: map<HexId, int>): seq<Entry>
    requires forall i :: 0 <= i < |keys| ==> keys[i] in counts
  {
    if keys == [] then []
    else
      var k := keys[|keys| - 1];
      DuplicatesOf(keys[..|keys| - 1], counts) + (if counts[k] > 1 then [Entry(k, counts[k])] else [])
  }

  /**
   * `find_duplicates`: walk the dict's items in order and keep each pair whose
   * count is greater than one.
   */
  method FindDuplicates(hexIdCount: IdCount) returns (duplicates: seq<Entry>)
    requires hexIdCount.Valid()
    ensures duplicates == DuplicatesOf(hexIdCount.keys, hexIdCount.counts)
  {
    var keys, counts := hexIdCount.keys, hexIdCount.counts;
    duplicates := [];
    var i := 0;
    while i < |keys|
      invariant i <= |keys|
      invariant duplicates == DuplicatesOf(keys[..i], counts)
    {
      var hexId := keys[i];
      var count := counts[hexId];
      if count > 1 {
        duplicates := duplicates + [Entry(hexId, count)];
      }
      i := i + 1;
      assert keys[..i][..i - 1] == keys[..i - 1];
    }
    assert keys[..i] == keys;
  }

  /** A pair is reported exactly when the dict maps its id to its count and that count exceeds one. */
  lemma {:induction false} DuplicatesMembers(keys: seq<HexId>, counts: map<HexId, int>, e: Entry)
    requires forall i :: 0 <= i < |keys| ==> keys[i] in counts
    ensures e in DuplicatesOf(keys, counts) <==> e.hexId in keys && counts[e.hexId] == e.count && e.count > 1
  {
    if keys != [] {
      var init := keys[..|keys| - 1];
      DuplicatesMembers(init, counts, e);
      SplitLast(keys);
      if e.hexId in keys && e.hexId !in init {
        assert e.hexId == keys[|keys| - 1];
      }
    }
  }

  /** Reported pairs keep the dict's order, so no id is reported twice. */
  lemma {:induction false} DuplicatesOrdered(keys: seq<HexId>, counts: map<HexId, int>)
    requires forall i :: 0 <= i < |keys| ==> keys[i] in counts
    requires Distinct(keys)
    ensures forall e :: e in DuplicatesOf(keys, counts) ==> e.hexId in keys
    ensures forall i, j :: 0 <= i < j < |DuplicatesOf(keys, counts)| ==>
      FirstIndex(keys, DuplicatesOf(keys, counts)[i].hexId) < FirstIndex(keys, DuplicatesOf(keys, counts)[j].hexId)
  {
    if keys != [] {
      var init := keys[..|keys| - 1];
      var k := keys[|keys| - 1];
      var prev := DuplicatesOf(init, counts);
      DuplicatesOrdered(init, counts);
      SplitLast(keys);
      forall e | e in prev ensures FirstIndex(keys, e.hexId) == FirstIndex(init, e.hexId) {
        FirstIndexExtend(init, [k], e.hexId);
      }
      assert k !in init;
      FirstIndexLast(init, k);
    }
  }

  /**
   * End to end: after counting a stream, a pair is reported exactly when its id
   * occurs in the stream more than once, as often as its count says, and the
   * reported ids follow the order of their first occurrence.
   */
  lemma DuplicatesOfStream(s: seq<HexId>)
    ensures forall e :: e in DuplicatesOf(Tally(s).keys, Tally(s).counts) ==> e.hexId in s
    ensures forall e :: e in DuplicatesOf(Tally(s).keys, Tally(s).counts) <==>
      e.count == Occurrences(s, e.hexId) && e.count > 1
    ensures forall i, j :: 0 <= i < j < |DuplicatesOf(Tally(s).keys, Tally(s).counts)| ==>
      FirstIndex(s, DuplicatesOf(Tally(s).keys, Tally(s).counts)[i].hexId)
        < FirstIndex(s, DuplicatesOf(Tally(s).keys, Tally(s).counts)[j].hexId)
  {
    var d := Tally(s);
    TallyValid(s);
    TallyFirstSeenOrder(s);
    assert FirstSeenOrdered(s, d.keys);
    var dups := DuplicatesOf(d.keys, d.counts);
    forall e ensures e in dups <==> e.count == Occurrences(s, e.hexId) && e.count > 1 {
      DuplicatesMembers(d.keys, d.counts, e);
      TallyCounts(s, e.hexId);
    }
    DuplicatesOrdered(d.keys, d.counts);
    forall e | e in dups ensures e.hexId in s {
      assert e.hexId in d.counts;
    }
    forall i, j | 0 <= i < j < |dups|
      ensures FirstIndex(s, dups[i].hexId) < FirstIndex(s, dups[j].hexId)
    {
      var a := FirstIndex(d.keys, dups[i].hexId);
      var b := FirstIndex(d.keys, dups[j].hexId);
      assert a < b && d.keys[a] == dups[i].hexId && d.keys[b] == dups[j].hexId;
    }
  }

  lemma TallySnoc(s: seq<HexId>, x: HexId)
    ensures Tally(s + [x]) == Tally(s).Increment(x)
  {
    assert (s + [x])[..|s|] == s;
  }

  lemma TallyExampleSteps(s: seq<HexId>, a: HexId, b: HexId, c: HexId)
    ensures Tally(s + [a] + [a] + [b] + [a] + [c] + [c])
         == Tally(s).Increment(a).Increment(a).Increment(b).Increment(a).Increment(c).Increment(c)
  {
    TallySnoc(s, a);
    TallySnoc(s + [a], a);
    TallySnoc(s + [a] + [a], b);
    TallySnoc(s + [a] + [a] + [b], a);
    TallySnoc(s + [a] + [a] + [b] + [a], c);
    TallySnoc(s + [a] + [a] + [b] + [a] + [c], c);
  }

  lemma IncrementExample(a: HexId, b: HexId, c: HexId)
    requires a != b && a != c && b != c
    ensures IdCount([], map[]).Increment(a).Increment(a).Increment(b).Increment(a).Increment(c).Increment(c)
         == IdCount([a, b, c], map[a := 3, b := 1, c := 2])
  {
  }

  /** Counting a a b a c c, for any three distinct ids, gives a: 3, b: 1, c: 2, keyed in that order. */
  lemma TallyExample(a: HexId, b: HexId, c: HexId)
    requires a != b && a != c && b != c
    ensures Tally([a, a, b, a, c, c]) == IdCount([a, b, c], map[a := 3, b := 1, c := 2])
  {
    var e: seq<HexId> := [];
    var s := e + [a] + [a] + [b] + [a] + [c] + [c];
    assert s == [a, a, b, a, c, c];
    assert Tally(e) == IdCount([], map[]);
    TallyExampleSteps(e, a, b, c);
    IncrementExample(a, b, c);
  }

  /** Counting A A B A C C (any three distinct ids) and keeping the duplicates gives A with 3, then C with 2. */
  lemma FirstSeenExample(a: HexId, b: HexId, c: HexId)
    requires a != b && a != c && b != c
    ensures DuplicatesOf(Tally([a, a, b, a, c, c]).keys, Tally([a, a, b, a, c, c]).counts)
         == [Entry(a, 3), Entry(c, 2)]
  {
    TallyExample(a, b, c);
    DuplicatesExample(a, b, c);
  }

  lemma DuplicatesExample(a: HexId, b: HexId, c: HexId)
    requires a != b && a != c && b != c
    ensures DuplicatesOf([a, b, c], map[a := 3, b := 1, c := 2]) == [Entry(a, 3), Entry(c, 2)]
  {
    var counts := map[a := 3, b := 1, c := 2];
    assert [a, b][..1] == [a];
    assert DuplicatesOf([a], counts) == [Entry(a, 3)];
    assert DuplicatesOf([a, b], counts) == [Entry(a, 3)];
    assert [a, b, c][..2] == [a, b];
  }

  /** One `'{0},{1}\n'.format(id, count)` line: no header, no quoting. */
  function Line(e: Entry): string {
    e.hexId + "," + PyInt.Format(e.count) + "\n"
  }

  /** The file text of one line per entry, in order. */
  function Encode(items: seq<Entry>): (text: string)
    ensures text == [] || text[|text| - 1] == '\n'
  {
    if items == [] then ""
    else Encode(items[..|items| - 1]) + Line(items[|items| - 1])
  }

  /** How many leading entries are written before `str(count)` raises for a count that is too long. */
  function WritableCount(items: seq<Entry>): (n: nat)
    ensures n <= |items|
    ensures forall i :: 0 <= i < n ==> PyInt.Formattable(items[i].count)
    ensures n < |items| ==> !PyInt.Formattable(items[n].count)
  {
    if items == [] || !PyInt.Formattable(items[0].count) then 0
    else 1 + WritableCount(items[1..])
  }

  /**
   * `write_pairs_csv`: write one line per pair, in order. `written` is what the
   * file holds afterwards; `ok` is false when formatting a count raised, which
   * stops the writing there.
   */
  method WritePairsCsv(items: seq<Entry>) returns (written: string, ok: bool)
    ensures ok <==> forall i :: 0 <= i < |items| ==> PyInt.Formattable(items[i].count)
    ensures written == Encode(items[..WritableCount(items)])
  {
    written := "";
    var i := 0;
    while i < |items|
      invariant i <= WritableCount(items)
      invariant written == Encode(items[..i])
    {
      var e := items[i];
      if !PyInt.Formattable(e.count) {
        assert i == WritableCount(items);
        ok := false;
        return;
      }
      EncodeNext(items, i);
      written := written + Line(e);
      i := i + 1;
    }
    assert WritableCount(items) == |items| && items[..i] == items;
    ok := true;
  }

  lemma EncodeNext(items: seq<Entry>, i: nat)
    requires i < |items|
    ensures Encode(items[..i + 1]) == Encode(items[..i]) + Line(items[i])
  {
    assert items[..i + 1][..i] == items[..i];
  }

  /** Why `read_pairs_csv` raises. */
  datatype ReadError =
    | CsvFailure(csvError: CsvReader.CsvError)  // csv.Error from the reader
    | IndexError                                // a record with fewer than two fields
    | ValueError                                // a second field that int() refuses

  /** `(row[0], int(row[1]))` for one record. */
  function PairOf(row: seq<string>): Result<Entry, ReadError> {
    if |row| < 2 then Err(IndexError)
    else match PyInt.Parse(row[1])
      case None => Err(ValueError)
      case Some(n) => Ok(Entry(row[0], n))
  }

  /** `f` of each element in order, or the error of the first element `f` fails on. */
  function Collect<A, B, E>(xs: seq<A>, f: A -> Result<B, E>): (r: Result<seq<B>, E>)
    ensures r.Ok? ==> |r.value| == |xs|
  {
    if xs == [] then Ok([])
    else match Collect(xs[..|xs| - 1], f)
      case Err(e) => Err(e)
      case Ok(ys) =>
        match f(xs[|xs| - 1])
        case Err(e) => Err(e)
        case Ok(y) => Ok(ys + [y])
  }

  /** The pairs of the records in order, or the error of the first record that has none. */
  function PairsOf(rows: seq<seq<string>>): Result<seq<Entry>, ReadError> {
    Collect(rows, PairOf)
  }

  /** What `read_pairs_csv` returns or raises for a file holding `text`. */
  function Decode(text: string): (r: Result<seq<Entry>, ReadError>)
    ensures CsvReader.Read(text).error.Some? ==> r.Err?
    ensures r.Ok? ==> |r.value| == |CsvReader.Read(text).rows|
  {
    var out := CsvReader.Read(text);
    match PairsOf(out.rows)
    case Err(e) => Err(e)
    case Ok(pairs) => if out.error.Some? then Err(CsvFailure(out.error.value)) else Ok(pairs)
  }

  lemma {:induction false} CollectPrefixError<A, B, E>(xs: seq<A>, f: A -> Result<B, E>, k: nat)
    requires k <= |xs| && Collect(xs[..k], f).Err?
    ensures Collect(xs, f) == Collect(xs[..k], f)
    decreases |xs| - k
  {
    if k < |xs| {
      assert xs[..k + 1][..k] == xs[..k];
      CollectPrefixError(xs, f, k + 1);
    } else {
      assert xs[..k] == xs;
    }
  }

  /**
   * `read_pairs_csv`: parse the file as CSV and turn each record into
   * `(row[0], int(row[1]))`, in order.
   */
  method ReadPairsCsv(text: string) returns (r: Result<seq<Entry>, ReadError>)
    ensures r == Decode(text)
  {
    var out := CsvReader.Read(text);
    var rows := out.rows;
    var pairs: seq<Entry> := [];
    var i := 0;
    while i < |rows|
      invariant i <= |rows|
      invariant Collect(rows[..i], PairOf) == Ok(pairs)
    {
      var row := rows[i];
      assert rows[..i + 1][..i] == rows[..i];
      if |row| < 2 {
        CollectPrefixError(rows, PairOf, i + 1);
        return Err(IndexError);
      }
      var a := row[0];
      var b := PyInt.Parse(row[1]);
      if b.None? {
        CollectPrefixError(rows, PairOf, i + 1);
        return Err(ValueError);
      }
      assert PairOf(row) == Ok(Entry(a, b.value));
      CollectNext(rows, PairOf, i, pairs, Entry(a, b.value));
      pairs := pairs + [Entry(a, b.value)];
      i := i + 1;
    }
    assert rows[..i] == rows;
    if out.error.Some? {
      return Err(CsvFailure(out.error.value));
    }
    return Ok(pairs);
  }

  lemma CollectNext<A, B, E>(xs: seq<A>, f: A -> Result<B, E>, i: nat, ys: seq<B>, y: B)
    requires i < |xs| && Collect(xs[..i], f) == Ok(ys) && f(xs[i]) == Ok(y)
    ensures Collect(xs[..i + 1], f) == Ok(ys + [y])
  {
    assert xs[..i + 1][..i] == xs[..i];
  }

  /**
   * When `f` succeeds on every element, collecting succeeds with `f`'s result
   * for each element, in order.
   */
  lemma {:induction false} CollectAllOk<A, B, E>(xs: seq<A>, f: A -> Result<B, E>)
    requires forall i :: 0 <= i < |xs| ==> f(xs[i]).Ok?
    ensures Collect(xs, f).Ok?
    ensures |Collect(xs, f).value| == |xs|
    ensures forall i :: 0 <= i < |xs| ==> Ok(Collect(xs, f).value[i]) == f(xs[i])
  {
    if xs != [] {
      var init := xs[..|xs| - 1];
      assert forall i :: 0 <= i < |init| ==> init[i] == xs[i];
      CollectAllOk(init, f);
    }
  }

  /** One element `f` fails on makes collecting fail. */
  lemma {:induction false} CollectSomeErr<A, B, E>(xs: seq<A>, f: A -> Result<B, E>, k: nat)
    requires k < |xs| && f(xs[k]).Err?
    ensures Collect(xs, f).Err?
  {
    var init := xs[..|xs| - 1];
    if k < |xs| - 1 {
      assert init[k] == xs[k];
      CollectSomeErr(init, f, k);
    }
  }

  /**
   * Reading succeeds exactly when every record has at least two fields and an
   * integer second field; then it yields one pair per record, in order, made of
   * the record's first field and the value of its second. Further fields are
   * ignored.
   */
  lemma PairsOfRecords(rows: seq<seq<string>>)
    ensures PairsOf(rows).Ok? <==> forall i :: 0 <= i < |rows| ==> |rows[i]| >= 2 && PyInt.Parse(rows[i][1]).Some?
    ensures PairsOf(rows).Ok? ==> |PairsOf(rows).value| == |rows|
    ensures PairsOf(rows).Ok? ==>
      forall i :: 0 <= i < |rows| ==> PairsOf(rows).value[i] == Entry(rows[i][0], PyInt.Parse(rows[i][1]).value)
  {
    if forall i :: 0 <= i < |rows| ==> PairOf(rows[i]).Ok? {
      CollectAllOk(rows, PairOf);
      forall i | 0 <= i < |rows|
        ensures PairsOf(rows).value[i] == Entry(rows[i][0], PyInt.Parse(rows[i][1]).value)
      {
        assert Ok(PairsOf(rows).value[i]) == PairOf(rows[i]);
      }
    } else {
      var k :| 0 <= k < |rows| && PairOf(rows[k]).Err?;
      CollectSomeErr(rows, PairOf, k);
    }
  }

  /** A record with fewer than two fields, or a second field `int()` refuses, cannot be read. */
  lemma PairOfFails(row: seq<string>)
    ensures PairOf(row).Err? <==> |row| < 2 || PyInt.Parse(row[1]).None?
    ensures |row| < 2 ==> PairOf(row) == Err(IndexError)
  {
  }

  /** `g` of each element, in order. */
  function MapSeq<A, B>(xs: seq<A>, g: A -> B): (ys: seq<B>)
    ensures |ys| == |xs|
  {
    if xs == [] then [] else MapSeq(xs[..|xs| - 1], g) + [g(xs[|xs| - 1])]
  }

  /** The record a line `id,count` holds. */
  function RecordOf(e: Entry): seq<string> {
    [e.hexId, PyInt.Format(e.count)]
  }

  /** The records a file of `items` holds: one `[id, str(count)]` record per entry. */
  function Records(items: seq<Entry>): seq<seq<string>> {
    MapSeq(items, RecordOf)
  }

  /** An id the file format carries verbatim: see `CsvReader.PlainField`. */
  predicate SafeId(id: HexId) {
    CsvReader.PlainField(id)
  }

  lemma FormatIsPlain(n: int)
    requires PyInt.Formattable(n)
    ensures CsvReader.PlainField(PyInt.Format(n))
  {
    var s := PyInt.Format(n);
    assert |s| <= |PyInt.Digits(PyInt.Abs(n))| + 1;
  }

  lemma {:induction false} EncodeFeeds(items: seq<Entry>)
    requires forall i :: 0 <= i < |items| ==> PyInt.Formattable(items[i].count) && SafeId(items[i].hexId)
    ensures CsvReader.Feed(CsvReader.Start, CsvReader.Tokens(Encode(items)))
         == CsvReader.Reader(CsvReader.StartRecord, "", [], Records(items), None)
  {
    if items != [] {
      var init := items[..|items| - 1];
      var e := items[|items| - 1];
      EncodeFeeds(init);
      FormatIsPlain(e.count);
      CsvReader.TokensAppend(Encode(init), Line(e));
      CsvReader.FeedAppend(CsvReader.Start, CsvReader.Tokens(Encode(init)), CsvReader.Tokens(Line(e)));
      CsvReader.TwoFieldLine(Records(init), e.hexId, PyInt.Format(e.count));
    }
  }

  lemma RecordsRead(items: seq<Entry>)
    requires forall i :: 0 <= i < |items| ==> PyInt.Formattable(items[i].count)
    ensures PairsOf(Records(items)) == Ok(items)
  {
    forall i | 0 <= i < |items| ensures PairOf(RecordOf(items[i])) == Ok(items[i]) {
      PairOfRecord(items[i]);
    }
    CollectMapInverse(items, RecordOf, PairOf);
  }

  /** Collecting with `f` after mapping with `g` gives back the input when `f` undoes `g`. */
  lemma {:induction false} CollectMapInverse<A, B, E>(xs: seq<B>, g: B -> A, f: A -> Result<B, E>)
    requires forall i :: 0 <= i < |xs| ==> f(g(xs[i])) == Ok(xs[i])
    ensures Collect(MapSeq(xs, g), f) == Ok(xs)
  {
    if xs != [] {
      var init := xs[..|xs| - 1];
      var ys := MapSeq(xs, g);
      assert forall i :: 0 <= i < |init| ==> init[i] == xs[i];
      CollectMapInverse(init, g, f);
      assert ys[..|ys| - 1] == MapSeq(init, g);
      assert init + [xs[|xs| - 1]] == xs;
    }
  }

  /** The record written for one entry converts back to that entry. */
  lemma PairOfRecord(e: Entry)
    requires PyInt.Formattable(e.count)
    ensures PairOf([e.hexId, PyInt.Format(e.count)]) == Ok(e)
  {
    PyInt.ParseFormat(e.count);
  }

  lemma EncodeHasNoCarriageReturn(items: seq<Entry>)
    requires forall i :: 0 <= i < |items| ==> PyInt.Formattable(items[i].count) && SafeId(items[i].hexId)
    ensures forall i :: 0 <= i < |Encode(items)| ==> Encode(items)[i] != '\r'
  {
    if items != [] {
      var init := items[..|items| - 1];
      var e := items[|items| - 1];
      EncodeHasNoCarriageReturn(init);
      FormatIsPlain(e.count);
    }
  }

  /**
   * Round trip: reading back what `write_pairs_csv` wrote gives the same pairs
   * in the same order, provided every id is carried verbatim and every count
   * could be written.
   */
  lemma RoundTrip(items: seq<Entry>)
    requires forall i :: 0 <= i < |items| ==> PyInt.Formattable(items[i].count) && SafeId(items[i].hexId)
    ensures Decode(Encode(items)) == Ok(items)
  {
    var text := Encode(items);
    EncodeHasNoCarriageReturn(items);
    CsvReader.TranslateWithoutCarriageReturn(text);
    EncodeFeeds(items);
    var r := CsvReader.Feed(CsvReader.Start, CsvReader.Tokens(text));
    assert r == CsvReader.Reader(CsvReader.StartRecord, "", [], Records(items), None);
    assert CsvReader.Read(text) == CsvReader.Finish(r);
    assert CsvReader.Read(text) == CsvReader.Outcome(Records(items), None);
    RecordsRead(items);
  }

  /** `itertools.batched(s, n)`: consecutive runs of `n` elements, the last one possibly shorter. */
  function Batches<T>(s: seq<T>, n: nat): (bs: seq<seq<T>>)
    requires n > 0
    ensures (|bs| - 1) * n < |s| <= |bs| * n
    decreases |s|
  {
    if s == [] then []
    else if |s| < n then [s]
    else [s[..n]] + Batches(s[n..], n)
  }

  lemma BatchesNone<T>(s: seq<T>, n: nat)
    requires n > 0
    ensures Batches(s, n) == [] <==> s == []
  {
  }

  function Concat<T>(ss: seq<seq<T>>): seq<T> {
    if ss == [] then [] else ss[0] + Concat(ss[1..])
  }

  /**
   * The batches put back together are the input, none is empty, none holds
   * more than `n` elements, and only the last may hold fewer.
   */
  lemma {:induction false} BatchesPartition<T>(s: seq<T>, n: nat)
    requires n > 0
    ensures Concat(Batches(s, n)) == s
    ensures Batches(s, n) == [] <==> s == []
    ensures forall i :: 0 <= i < |Batches(s, n)| ==> 0 < |Batches(s, n)[i]| <= n
    ensures forall i :: 0 <= i < |Batches(s, n)| - 1 ==> |Batches(s, n)[i]| == n
    decreases |s|
  {
    if s != [] {
      var m := if |s| < n then |s| else n;
      BatchesPartition(s[m..], n);
      assert s[..m] + s[m..] == s;
      var bs := Batches(s, n);
      assert bs[1..] == Batches(s[m..], n);
      assert forall i :: 1 <= i < |bs| ==> bs[i] == Batches(s[m..], n)[i - 1];
    }
  }

  /** `sep.join(xs)`. */
  function Join(sep: string, xs: seq<string>): string {
    if xs == [] then ""
    else if |xs| == 1 then xs[0]
    else xs[0] + sep + Join(sep, xs[1..])
  }

  /** The IN-list text built from a batch: each id between single quotes, comma-separated, unescaped. */
  function InList(batch: seq<HexId>): (t: string)
    ensures |t| >= 2 && t[0] == '\'' && t[|t| - 1] == '\''
    ensures batch == [] ==> t == "''"
  {
    "'" + Join("','", batch) + "'"
  }

  const QueryHead := "SELECT * FROM national_dataset WHERE hex_id IN ("

  /** The query sent for one batch. */
  function Query(batch: seq<HexId>): (q: string)
    ensures |q| > |QueryHead| && q[..|QueryHead|] == QueryHead && q[|q| - 1] == ')'
  {
    QueryHead + InList(batch) + ")"
  }

  predicate NoQuote(id: HexId) {
    forall i :: 0 <= i < |id| ==> id[i] != '\''
  }

  /**
   * How SQL reads a comma-separated list of single-quoted string literals,
   * where a doubled quote inside a literal stands for one quote.
   */
  function ParseLiterals(s: string): Option<seq<string>>
    decreases |s|, 1
  {
    if |s| > 0 && s[0] == '\'' then ParseLiteralBody(s[1..], "") else None
  }

  function ParseLiteralBody(s: string, acc: string): Option<seq<string>>
    decreases |s|, 0
  {
    if s == [] then None
    else if s[0] == '\'' then
      if |s| > 1 && s[1] == '\'' then ParseLiteralBody(s[2..], acc + "'")
      else ParseAfterLiteral(s[1..], acc)
    else ParseLiteralBody(s[1..], acc + [s[0]])
  }

  function ParseAfterLiteral(s: string, literal: string): Option<seq<string>>
    decreases |s|, 2
  {
    if s == [] then Some([literal])
    else if s[0] == ',' then
      match ParseLiterals(s[1..])
      case Some(rest) => Some([literal] + rest)
      case None => None
    else None
  }

  lemma {:induction false} ParseQuoteFreeBody(w: string, rest: string, acc: string)
    requires NoQuote(w)
    requires rest == [] || rest[0] != '\''
    ensures ParseLiteralBody(w + "'" + rest, acc) == ParseAfterLiteral(rest, acc + w)
    decreases |w|
  {
    if w == [] {
      assert w + "'" + rest == "'" + rest;
      assert acc + w == acc;
    } else {
      assert (w + "'" + rest)[1..] == w[1..] + "'" + rest;
      ParseQuoteFreeBody(w[1..], rest, acc + [w[0]]);
      assert acc + [w[0]] + w[1..] == acc + w;
    }
  }

  /** Without quotes in the ids, the IN-list reads back as exactly the batch. */
  lemma {:induction false} InListReadsBack(batch: seq<HexId>)
    requires batch != []
    requires forall i :: 0 <= i < |batch| ==> NoQuote(batch[i])
    ensures ParseLiterals(InList(batch)) == Some(batch)
    decreases |batch|
  {
    var x := batch[0];
    if |batch| == 1 {
      assert InList(batch) == "'" + x + "'" + "";
      assert InList(batch)[1..] == x + "'" + "";
      ParseQuoteFreeBody(x, "", "");
      assert "" + x == x;
      assert ParseLiteralBody(x + "'" + "", "") == Some([x]);
      assert batch == [x];
    } else {
      var rest := batch[1..];
      assert InList(batch) == "'" + x + "'" + ("," + InList(rest));
      assert InList(batch)[1..] == x + "'" + ("," + InList(rest));
      ParseQuoteFreeBody(x, "," + InList(rest), "");
      assert "" + x == x;
      InListReadsBack(rest);
      assert ("," + InList(rest))[1..] == InList(rest);
      assert [x] + rest == batch;
    }
  }

  /** A quote in an id is not escaped: the id `a'b` does not read back as itself. */
  lemma QuoteBreaksInList()
    ensures ParseLiterals(InList(["a'b"])) != Some(["a'b"])
  {
    assert InList(["a'b"]) == "'a'b'";
    assert "'a'b'"[1..] == "a'b'";
    assert ParseLiteralBody("a'b'", "") == ParseLiteralBody("'b'", "a");
    assert ParseLiteralBody("'b'", "a") == ParseAfterLiteral("b'", "a");
  }

  /** What the database answers to one query: the column names and the records, in some order. */
  datatype Answer<R> = Answer(colnames: seq<string>, records: seq<R>)

  /** The records of every batch's query, batch after batch. */
  function Fetched<R>(fetch: string -> Answer<R>, bs: seq<seq<HexId>>): seq<R> {
    if bs == [] then []
    else Fetched(fetch, bs[..|bs| - 1]) + fetch(Query(bs[|bs| - 1])).records
  }

  /**
   * Sends one IN-query per batch of `RowsBatchSize` ids and keeps every record
   * of every answer, in order; the column names come from the first answer and
   * stay `None` when there is no batch at all.
   */
  method GetRowsByHexId<R>(fetch: string -> Answer<R>, hexIds: seq<HexId>)
    returns (colnames: Option<seq<string>>, rows: seq<R>)
    ensures rows == Fetched(fetch, Batches(hexIds, RowsBatchSize))
    ensures colnames.None? <==> hexIds == []
    ensures hexIds != [] ==>
      colnames == Some(fetch(Query(Batches(hexIds, RowsBatchSize)[0])).colnames)
  {
    BatchesNone(hexIds, RowsBatchSize);
    var batches := Batches(hexIds, RowsBatchSize);
    colnames := None;
    rows := [];
    for j := 0 to |batches|
      invariant rows == Fetched(fetch, batches[..j])
      invariant colnames.None? <==> j == 0
      invariant j > 0 ==> colnames == Some(fetch(Query(batches[0])).colnames)
    {
      var answer := fetch(Query(batches[j]));
      if colnames.None? {
        colnames := Some(answer.colnames);
      }
      ghost var before := rows;
      for k := 0 to |answer.records|
        invariant rows == before + answer.records[..k]
      {
        rows := rows + [answer.records[k]];
      }
      assert batches[..j + 1][..j] == batches[..j];
    }
    assert batches[..|batches|] == batches;
  }

  predicate Distinct<T(==)>(s: seq<T>) {
    forall i, j :: 0 <= i < j < |s| ==> s[i] != s[j]
  }

  /**
   * Reference semantics of `WHERE hex_id IN (...)` over a table: the rows whose
   * key is one of the listed ids, each as often as the table holds it.
   */
  function Select<R>(table: seq<R>, key: R -> HexId, ids: seq<HexId>): seq<R> {
    if table == [] then []
    else (if key(table[0]) in ids then [table[0]] else []) + Select(table[1..], key, ids)
  }

  /**
   * `fetch` answers every batch query by reading the IN-list the way SQL does
   * and selecting those rows of `table`, in whatever order.
   */
  ghost predicate Serves<R>(fetch: string -> Answer<R>, table: seq<R>, key: R -> HexId) {
    forall b: seq<HexId> {:trigger Query(b)} ::
      ParseLiterals(InList(b)).Some? ==>
        multiset(fetch(Query(b)).records) == multiset(Select(table, key, ParseLiterals(InList(b)).value))
  }

  lemma {:induction false} SelectCount<R>(table: seq<R>, key: R -> HexId, ids: seq<HexId>, r: R)
    ensures multiset(Select(table, key, ids))[r] == if key(r) in ids then multiset(table)[r] else 0
    decreases |table|
  {
    if table != [] {
      SelectCount(table[1..], key, ids, r);
      assert table == [table[0]] + table[1..];
    }
  }

  lemma {:induction false} ConcatSnoc<T>(bs: seq<seq<T>>)
    requires bs != []
    ensures Concat(bs) == Concat(bs[..|bs| - 1]) + bs[|bs| - 1]
    decreases |bs|
  {
    var init, last := bs[..|bs| - 1], bs[|bs| - 1];
    if |bs| == 1 {
      assert Concat(bs) == bs[0] + Concat(bs[1..]);
      assert init == [];
      assert bs[1..] == [];
    } else {
      var tail := bs[1..];
      ConcatSnoc(tail);
      assert tail[..|tail| - 1] == init[1..];
      assert tail[|tail| - 1] == last;
      calc {
        Concat(bs);
        bs[0] + Concat(tail);
        bs[0] + (Concat(init[1..]) + last);
        (init[0] + Concat(init[1..])) + last;
        Concat(init) + last;
      }
    }
  }

  lemma {:induction false} FetchedCount<R>(fetch: string -> Answer<R>, table: seq<R>, key: R -> HexId,
                                           bs: seq<seq<HexId>>, r: R)
    requires Serves(fetch, table, key)
    requires Distinct(Concat(bs))
    requires forall i :: 0 <= i < |bs| ==> bs[i] != []
    requires forall i, x :: 0 <= i < |bs| && x in bs[i] ==> NoQuote(x)
    ensures multiset(Fetched(fetch, bs))[r] == if key(r) in Concat(bs) then multiset(table)[r] else 0
    decreases |bs|
  {
    if bs != [] {
      var init, last := bs[..|bs| - 1], bs[|bs| - 1];
      ConcatSnoc(bs);
      var c := Concat(init);
      assert Distinct(c) by {
        forall i, j | 0 <= i < j < |c| ensures c[i] != c[j] {
          assert Concat(bs)[i] == c[i] && Concat(bs)[j] == c[j];
        }
      }
      forall x | x in Concat(init) ensures NoQuote(x) { ConcatMember(init, x); }
      FetchedCount(fetch, table, key, init, r);
      assert forall x :: x in last ==> NoQuote(x);
      InListReadsBack(last);
      assert multiset(fetch(Query(last)).records) == multiset(Select(table, key, last));
      SelectCount(table, key, last, r);
      DistinctDisjoint(c, last, key(r));
    }
  }

  lemma DistinctDisjoint<T>(a: seq<T>, b: seq<T>, x: T)
    requires Distinct(a + b)
    ensures !(x in a && x in b)
  {
    forall i, j | 0 <= i < |a| && 0 <= j < |b| ensures a[i] != b[j] {
      assert (a + b)[i] == a[i] && (a + b)[|a| + j] == b[j];
    }
  }

  lemma {:induction false} ConcatMember<T>(bs: seq<seq<T>>, x: T)
    requires x in Concat(bs)
    ensures exists i :: 0 <= i < |bs| && x in bs[i]
    decreases |bs|
  {
    if x !in bs[0] {
      ConcatMember(bs[1..], x);
      var i :| 0 <= i < |bs[1..]| && x in bs[1..][i];
      assert x in bs[i + 1];
    }
  }

  /**
   * Against a database that answers the queries, distinct quote-free ids
   * fetch every table row whose id is listed exactly as often as the table
   * holds it, and no other row.
   */
  lemma RowsByHexIdComplete<R>(fetch: string -> Answer<R>, table: seq<R>, key: R -> HexId, hexIds: seq<HexId>)
    requires Serves(fetch, table, key)
    requires Distinct(hexIds)
    requires forall i :: 0 <= i < |hexIds| ==> NoQuote(hexIds[i])
    ensures forall r ::
      multiset(Fetched(fetch, Batches(hexIds, RowsBatchSize)))[r] == (if key(r) in hexIds then multiset(table)[r] else 0)
  {
    var bs := Batches(hexIds, RowsBatchSize);
    BatchesPartition(hexIds, RowsBatchSize);
    forall i, x | 0 <= i < |bs| && x in bs[i] ensures NoQuote(x) {
      BatchMember(hexIds, RowsBatchSize, i, x);
    }
    forall r ensures multiset(Fetched(fetch, bs))[r] == if key(r) in hexIds then multiset(table)[r] else 0 {
      FetchedCount(fetch, table, key, bs, r);
    }
  }

  lemma {:induction false} BatchMember<T>(s: seq<T>, n: nat, i: nat, x: T)
    requires n > 0
    requires i < |Batches(s, n)| && x in Batches(s, n)[i]
    ensures x in s
    decreases |s|
  {
    var m := if |s| < n then |s| else n;
    if i > 0 {
      BatchMember(s[m..], n, i - 1, x);
    }
  }
}
