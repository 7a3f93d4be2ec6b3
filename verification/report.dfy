/** app.py `build_report`: the printable matrix of one shift at one station,
    checklist items as rows and donetimes as columns. */
module ShiftReport {
  import opened Wrappers
  import opened Values
  import opened Records
  import opened Clock
  import opened Sorting
  import opened Seqs

  /** The `header` dictionary: operator, product and production order. */
  datatype Header = Header(operator: string, product: string, productionOrder: string)

  /** The header of a report with no columns. */
  const EmptyHeader := Header("", "", "")

  /** One row of the matrix: an item (the `label` key) and its value in every column. */
  datatype Row = Row(name: string, values: seq<string>)

  datatype Report = Report(
    columns: seq<string>,
    matrix: seq<Row>,
    header: Header,
    shiftDate: string,
    shift: string,
    station: string)

  /** What one counted record contributes to the loop: its donetime, its
      item, its normalized value and its header fields. */
  datatype Entry = Entry(donetime: string, item: string, value: string, header: Header)

  /** The loop's state. `order` lists the keys of `submissions` in insertion
      order; `cells[(t, item)]` is `submissions[t][item]`; `meta` is `meta`. */
  datatype Tally = Tally(order: seq<string>, cells: map<(string, string), string>, meta: map<string, Header>)

  const EmptyTally := Tally([], map[], map[])

  /** The entry names donetime `t`. */
  predicate Has(e: Option<Entry>, t: string) {
    e.Some? && e.value.donetime == t
  }

  /** The entry writes the cell of donetime `t` and item `item`. */
  predicate Writes(e: Option<Entry>, t: string, item: string) {
    Has(e, t) && e.value.item == item
  }

  /** One iteration of the loop of `build_report` on an entry: `setdefault`
      registers a new donetime, the cell is overwritten, and the header is
      recorded only for a donetime not seen before. */
  function Step(s: Tally, e: Option<Entry>): Tally {
    match e
    case None => s
    case Some(Entry(t, item, v, h)) =>
      Tally(
        if t in s.order then s.order else s.order + [t],
        s.cells[(t, item) := v],
        if t in s.meta then s.meta else s.meta[t := h])
  }

  /** The loop over the entries, in record order. */
  function TallyOf(es: seq<Option<Entry>>): Tally {
    if es == [] then EmptyTally else Step(TallyOf(es[..|es| - 1]), es[|es| - 1])
  }

  // ---------------------------------------------------------------------
  // The loop in terms of its entries.

  ghost predicate Distinct(s: seq<string>) {
    forall i, j :: 0 <= i < j < |s| ==> s[i] != s[j]
  }

  /** Some entry names donetime `t`. */
  ghost predicate Seen(es: seq<Option<Entry>>, t: string) {
    exists k :: 0 <= k < |es| && Has(es[k], t)
  }

  /** Some entry writes the cell `(t, item)`. */
  ghost predicate Written(es: seq<Option<Entry>>, t: string, item: string) {
    exists k :: 0 <= k < |es| && Writes(es[k], t, item)
  }

  /** `v` is the value of the last entry writing the cell `(t, item)`. */
  ghost predicate LastWrite(es: seq<Option<Entry>>, t: string, item: string, v: string) {
    exists k :: 0 <= k < |es| && Writes(es[k], t, item) && es[k].value.value == v
      && forall k' :: k < k' < |es| ==> !Writes(es[k'], t, item)
  }

  /** `h` is the header of the first entry naming donetime `t`. */
  ghost predicate FirstHeader(es: seq<Option<Entry>>, t: string, h: Header) {
    exists k :: 0 <= k < |es| && Has(es[k], t) && es[k].value.header == h
      && forall k' :: 0 <= k' < k ==> !Has(es[k'], t)
  }

  lemma SeenExtend(prev: seq<Option<Entry>>, e: Option<Entry>, t: string)
    ensures Seen(prev + [e], t) <==> Seen(prev, t) || Has(e, t)
  {
    var es := prev + [e];
    if Seen(es, t) && !Has(e, t) {
      var k :| 0 <= k < |es| && Has(es[k], t);
      assert k < |prev| && es[k] == prev[k];
    }
    if Seen(prev, t) {
      var k :| 0 <= k < |prev| && Has(prev[k], t);
      assert es[k] == prev[k];
    }
    if Has(e, t) {
      assert es[|prev|] == e;
    }
  }

  /** The donetimes of the loop are distinct, are exactly the donetimes of
      the entries, and are exactly the keys of `meta`. */
  lemma {:induction false} TallyOrder(es: seq<Option<Entry>>)
    ensures Distinct(TallyOf(es).order)
    ensures forall t :: t in TallyOf(es).order <==> t in TallyOf(es).meta
    ensures forall t :: t in TallyOf(es).order <==> Seen(es, t)
  {
    if es != [] {
      var prev, e := es[..|es| - 1], es[|es| - 1];
      assert prev + [e] == es;
      TallyOrder(prev);
      var s0 := TallyOf(prev);
      var s := Step(s0, e);
      assert TallyOf(es) == s;
      forall t ensures t in s.order <==> Seen(es, t) {
        SeenExtend(prev, e, t);
      }
    }
  }

  /** A cell is present exactly when some entry wrote it, and then it holds
      the value of the last such entry. */
  lemma {:induction false} TallyCells(es: seq<Option<Entry>>, t: string, item: string)
    ensures (t, item) in TallyOf(es).cells <==> Written(es, t, item)
    ensures (t, item) in TallyOf(es).cells ==> LastWrite(es, t, item, TallyOf(es).cells[(t, item)])
  {
    if es != [] {
      var prev, e := es[..|es| - 1], es[|es| - 1];
      assert prev + [e] == es;
      TallyCells(prev, t, item);
      var s0 := TallyOf(prev);
      var s := Step(s0, e);
      assert TallyOf(es) == s;
      if Writes(e, t, item) {
        assert es[|prev|] == e;
        assert s.cells[(t, item)] == e.value.value;
      } else {
        assert ((t, item) in s.cells) == ((t, item) in s0.cells);
        if (t, item) in s0.cells {
          assert s.cells[(t, item)] == s0.cells[(t, item)];
          var k :| 0 <= k < |prev| && Writes(prev[k], t, item) && prev[k].value.value == s0.cells[(t, item)]
            && forall k' :: k < k' < |prev| ==> !Writes(prev[k'], t, item);
          assert es[k] == prev[k];
          forall k' | k < k' < |es| ensures !Writes(es[k'], t, item) {
            if k' < |prev| {
              assert es[k'] == prev[k'];
            }
          }
        }
        if Written(es, t, item) {
          var k :| 0 <= k < |es| && Writes(es[k], t, item);
          assert k < |prev| && es[k] == prev[k];
        }
      }
      if Written(prev, t, item) {
        var k :| 0 <= k < |prev| && Writes(prev[k], t, item);
        assert es[k] == prev[k];
      }
    }
  }

  lemma FirstHeaderKeep(prev: seq<Option<Entry>>, e: Option<Entry>, t: string, h: Header)
    requires FirstHeader(prev, t, h)
    ensures FirstHeader(prev + [e], t, h)
  {
    var es := prev + [e];
    var k :| 0 <= k < |prev| && Has(prev[k], t) && prev[k].value.header == h
      && forall k' :: 0 <= k' < k ==> !Has(prev[k'], t);
    assert es[k] == prev[k];
    assert forall k' :: 0 <= k' < k ==> es[k'] == prev[k'];
  }

  lemma FirstHeaderNew(prev: seq<Option<Entry>>, e: Option<Entry>, t: string)
    requires !Seen(prev, t) && Has(e, t)
    ensures FirstHeader(prev + [e], t, e.value.header)
  {
    var es := prev + [e];
    assert es[|prev|] == e;
    assert forall k' :: 0 <= k' < |prev| ==> es[k'] == prev[k'];
  }

  /** Every recorded header is that of the first entry of its donetime. */
  lemma {:induction false} TallyMeta(es: seq<Option<Entry>>, t: string)
    ensures t in TallyOf(es).meta ==> FirstHeader(es, t, TallyOf(es).meta[t])
  {
    if es != [] {
      var prev, e := es[..|es| - 1], es[|es| - 1];
      assert prev + [e] == es;
      TallyMeta(prev, t);
      TallyOrder(prev);
      var s0 := TallyOf(prev);
      assert TallyOf(es) == Step(s0, e);
      if t in s0.meta {
        FirstHeaderKeep(prev, e, t, s0.meta[t]);
      } else if Has(e, t) {
        FirstHeaderNew(prev, e, t);
      }
    }
  }

  /** Some entry naming `x` comes before every entry naming `y`. */
  ghost predicate SeenBefore(es: seq<Option<Entry>>, x: string, y: string) {
    exists k :: 0 <= k < |es| && Has(es[k], x) && forall k' :: 0 <= k' <= k ==> !Has(es[k'], y)
  }

  /** `submissions` keeps its donetimes in the order they were first seen,
      the insertion order of a Python dictionary. */
  lemma {:induction false} TallyFirstSeen(es: seq<Option<Entry>>)
    ensures forall i, j :: 0 <= i < j < |TallyOf(es).order| ==>
      SeenBefore(es, TallyOf(es).order[i], TallyOf(es).order[j])
  {
    if es != [] {
      var prev, e := es[..|es| - 1], es[|es| - 1];
      assert prev + [e] == es;
      TallyFirstSeen(prev);
      TallyOrder(prev);
      var s0 := TallyOf(prev);
      var s := Step(s0, e);
      assert TallyOf(es) == s;
      forall i, j | 0 <= i < j < |s.order| ensures SeenBefore(es, s.order[i], s.order[j]) {
        var x, y := s.order[i], s.order[j];
        assert x == s0.order[i];
        if j < |s0.order| {
          assert SeenBefore(prev, x, y);
          var k :| 0 <= k < |prev| && Has(prev[k], x) && forall k' :: 0 <= k' <= k ==> !Has(prev[k'], y);
          assert es[k] == prev[k];
          assert forall k' :: 0 <= k' <= k ==> es[k'] == prev[k'];
        } else {
          assert y !in s0.order;
          assert Seen(prev, x);
          var k :| 0 <= k < |prev| && Has(prev[k], x);
          assert es[k] == prev[k];
          assert forall k' :: 0 <= k' <= k ==> es[k'] == prev[k'];
        }
      }
    }
  }

  /** An entry the loop skips anywhere in the batch changes nothing. */
  lemma {:induction false} TallySkip(a: seq<Option<Entry>>, b: seq<Option<Entry>>)
    ensures TallyOf(a + [None] + b) == TallyOf(a + b)
    decreases |b|
  {
    if b == [] {
      assert (a + [None])[..|a|] == a;
      assert a + [None] + b == a + [None] && a + b == a;
    } else {
      var b', x := b[..|b| - 1], b[|b| - 1];
      TallySkip(a, b');
      assert (a + [None] + b)[..|a + [None] + b| - 1] == a + [None] + b';
      assert (a + b)[..|a + b| - 1] == a + b';
    }
  }

  // ---------------------------------------------------------------------
  // From records to entries.

  /** The list comprehension's guard: the record belongs to the requested
      shift date, shift and station. */
  predicate Selected(r: Record, shiftDate: string, shiftName: string, station: string) {
    Field(r.shiftDate) == shiftDate && Field(r.shift) == shiftName && Field(r.station) == station
  }

  /** A selected record that the loop does not skip: non-empty donetime and
      an allowed item. */
  predicate Counted(r: Record, shiftDate: string, shiftName: string, station: string) {
    && Selected(r, shiftDate, shiftName, station)
    && Field(r.donetime) != ""
    && Field(r.itemname) in AllowedItems(OrderedItems)
  }

  function HeaderOf(r: Record): Header {
    Header(Field(r.operator), Field(r.productproduced), Field(r.productionOrder))
  }

  /** The entry of one record; `None` for a record the filter or the loop
      skips. Filtering first and then looping visits the records the loop
      counts in their original order, so one pass with both guards is the
      same computation. */
  function EntryOf(r: Record, shiftDate: string, shiftName: string, station: string): (e: Option<Entry>)
    ensures e.Some? <==> Counted(r, shiftDate, shiftName, station)
    ensures e.Some? ==> e.value == Entry(Field(r.donetime), Field(r.itemname), NormalizeValue(r.itemresult), HeaderOf(r))
  {
    if Counted(r, shiftDate, shiftName, station) then
      Some(Entry(Field(r.donetime), Field(r.itemname), NormalizeValue(r.itemresult), HeaderOf(r)))
    else None
  }

  function EntryFn(shiftDate: string, shiftName: string, station: string): Record -> Option<Entry> {
    r => EntryOf(r, shiftDate, shiftName, station)
  }

  function Entries(rows: seq<Record>, shiftDate: string, shiftName: string, station: string): (es: seq<Option<Entry>>)
    ensures |es| == |rows|
    ensures forall k :: 0 <= k < |rows| ==> es[k] == EntryOf(rows[k], shiftDate, shiftName, station)
  {
    Map(EntryFn(shiftDate, shiftName, station), rows)
  }

  /** `submissions.get(t, {}).get(item, "")`. */
  function Cell(s: Tally, t: string, item: string): string {
    if (t, item) in s.cells then s.cells[(t, item)] else ""
  }

  /** `meta.get(columns[-1], header)` when there are columns. */
  function HeaderFor(s: Tally, columns: seq<string>): Header {
    if columns == [] then EmptyHeader
    else if columns[|columns| - 1] in s.meta then s.meta[columns[|columns| - 1]]
    else EmptyHeader
  }

  function Matrix(s: Tally, items: seq<string>, columns: seq<string>): (m: seq<Row>)
    ensures |m| == |items|
    ensures forall i :: 0 <= i < |items| ==> m[i].name == items[i] && |m[i].values| == |columns|
    ensures forall i, j :: 0 <= i < |items| && 0 <= j < |columns| ==> m[i].values[j] == Cell(s, columns[j], items[i])
  {
    seq(|items|, i requires 0 <= i < |items| =>
      Row(items[i], seq(|columns|, j requires 0 <= j < |columns| => Cell(s, columns[j], items[i]))))
  }

  /** app.py `build_report`. */
  function BuildReport(rows: seq<Record>, shiftDate: string, shiftName: string, station: string): (rep: Report)
    ensures rep.shiftDate == shiftDate && rep.shift == shiftName && rep.station == station
    ensures |rep.matrix| == |OrderedItems|
    ensures forall i :: 0 <= i < |OrderedItems| ==>
      rep.matrix[i].name == OrderedItems[i] && |rep.matrix[i].values| == |rep.columns|
    ensures forall i, j :: 0 <= i < j < |rep.columns| ==>
      ShiftKey(shiftName, ShiftStart, rep.columns[i]) <= ShiftKey(shiftName, ShiftStart, rep.columns[j])
  {
    var s := TallyOf(Entries(rows, shiftDate, shiftName, station));
    var columns := SortDonetimes(s.order, shiftName, ShiftStart);
    Report(columns, Matrix(s, OrderedItems, columns), HeaderFor(s, columns), shiftDate, shiftName, station)
  }

  // ---------------------------------------------------------------------
  // The report in terms of the records.

  /** The record is counted and has donetime `t`. */
  predicate CountedAt(r: Record, shiftDate: string, shiftName: string, station: string, t: string) {
    Counted(r, shiftDate, shiftName, station) && Field(r.donetime) == t
  }

  /** The record is counted and writes the cell of donetime `t`, item `item`. */
  predicate WritesCell(r: Record, shiftDate: string, shiftName: string, station: string, t: string, item: string) {
    CountedAt(r, shiftDate, shiftName, station, t) && Field(r.itemname) == item
  }

  /** The loop's state after all the records. */
  function FinalTally(rows: seq<Record>, shiftDate: string, shiftName: string, station: string): Tally {
    TallyOf(Entries(rows, shiftDate, shiftName, station))
  }

  /** The entries name a donetime and write a cell where the records do. */
  lemma EntriesFeed(rows: seq<Record>, shiftDate: string, shiftName: string, station: string, t: string, item: string)
    ensures forall k :: 0 <= k < |rows| ==>
      var e := Entries(rows, shiftDate, shiftName, station)[k];
      && (Has(e, t) <==> CountedAt(rows[k], shiftDate, shiftName, station, t))
      && (Writes(e, t, item) <==> WritesCell(rows[k], shiftDate, shiftName, station, t, item))
  {
  }

  /** What the entry of a counted record carries. */
  lemma EntryPayload(rows: seq<Record>, shiftDate: string, shiftName: string, station: string, k: int)
    requires 0 <= k < |rows|
    ensures var e := Entries(rows, shiftDate, shiftName, station)[k];
      e.Some? ==> e.value.value == NormalizeValue(rows[k].itemresult) && e.value.header == HeaderOf(rows[k])
  {
  }

  /** The report's columns are its tally's donetimes, reordered. */
  lemma ColumnsOfTally(rows: seq<Record>, shiftDate: string, shiftName: string, station: string)
    ensures var s := FinalTally(rows, shiftDate, shiftName, station);
      BuildReport(rows, shiftDate, shiftName, station).columns == SortDonetimes(s.order, shiftName, ShiftStart)
  {
  }

  /** A reordering of distinct donetimes is distinct and has the same members. */
  lemma ReorderedDistinct(order: seq<string>, columns: seq<string>)
    requires multiset(columns) == multiset(order) && Distinct(order)
    ensures Distinct(columns)
    ensures forall t :: t in columns <==> t in order
  {
    var id := (x: string) => x;
    assert InjectiveOn(order, id);
    PermutationKeepsInjective(order, columns, id);
    assert InjectiveOn(columns, id);
    forall t ensures t in columns <==> t in order {
      assert t in columns <==> t in multiset(columns);
      assert t in order <==> t in multiset(order);
    }
  }

  /** Some entry names `t` exactly when some counted record carries it. */
  lemma SeenInRecords(rows: seq<Record>, shiftDate: string, shiftName: string, station: string, t: string)
    ensures Seen(Entries(rows, shiftDate, shiftName, station), t) <==>
      exists k :: 0 <= k < |rows| && CountedAt(rows[k], shiftDate, shiftName, station, t)
  {
    EntriesFeed(rows, shiftDate, shiftName, station, t, "");
  }

  /** The columns are distinct, and a donetime is a column exactly when
      some counted record carries it. */
  lemma ReportColumns(rows: seq<Record>, shiftDate: string, shiftName: string, station: string, t: string)
    ensures Distinct(BuildReport(rows, shiftDate, shiftName, station).columns)
    ensures t in BuildReport(rows, shiftDate, shiftName, station).columns <==>
      exists k :: 0 <= k < |rows| && CountedAt(rows[k], shiftDate, shiftName, station, t)
  {
    var es := Entries(rows, shiftDate, shiftName, station);
    var s := TallyOf(es);
    var columns := BuildReport(rows, shiftDate, shiftName, station).columns;
    ColumnsOfTally(rows, shiftDate, shiftName, station);
    TallyOrder(es);
    ReorderedDistinct(s.order, columns);
    SeenInRecords(rows, shiftDate, shiftName, station, t);
  }

  /** Record `k` is the last counted record writing the cell `(t, item)`. */
  ghost predicate LastWriter(rows: seq<Record>, shiftDate: string, shiftName: string, station: string,
                             t: string, item: string, k: int) {
    && 0 <= k < |rows|
    && WritesCell(rows[k], shiftDate, shiftName, station, t, item)
    && forall k' :: k < k' < |rows| ==> !WritesCell(rows[k'], shiftDate, shiftName, station, t, item)
  }

  /** Record `k` is the first counted record with donetime `t`. */
  ghost predicate FirstWithTime(rows: seq<Record>, shiftDate: string, shiftName: string, station: string,
                                t: string, k: int) {
    && 0 <= k < |rows|
    && CountedAt(rows[k], shiftDate, shiftName, station, t)
    && forall k' :: 0 <= k' < k ==> !CountedAt(rows[k'], shiftDate, shiftName, station, t)
  }

  /** The value of one cell in terms of the tally's cells. */
  lemma CellOfTally(rows: seq<Record>, shiftDate: string, shiftName: string, station: string, t: string, item: string)
    ensures var es := Entries(rows, shiftDate, shiftName, station);
      var v := Cell(TallyOf(es), t, item);
      && (!Written(es, t, item) ==> v == "")
      && (Written(es, t, item) ==> LastWrite(es, t, item, v))
  {
    TallyCells(Entries(rows, shiftDate, shiftName, station), t, item);
  }

  /** Some entry writes a cell exactly when some counted record does. */
  lemma WrittenInRecords(rows: seq<Record>, shiftDate: string, shiftName: string, station: string, t: string, item: string)
    ensures Written(Entries(rows, shiftDate, shiftName, station), t, item) <==>
      exists k :: 0 <= k < |rows| && WritesCell(rows[k], shiftDate, shiftName, station, t, item)
  {
    EntriesFeed(rows, shiftDate, shiftName, station, t, item);
  }

  /** The last write among the entries, read back on the records. */
  lemma LastWriteInRecords(rows: seq<Record>, shiftDate: string, shiftName: string, station: string,
                           t: string, item: string, v: string)
    requires LastWrite(Entries(rows, shiftDate, shiftName, station), t, item, v)
    ensures exists k :: LastWriter(rows, shiftDate, shiftName, station, t, item, k) && v == NormalizeValue(rows[k].itemresult)
  {
    var es := Entries(rows, shiftDate, shiftName, station);
    EntriesFeed(rows, shiftDate, shiftName, station, t, item);
    var k :| 0 <= k < |es| && Writes(es[k], t, item) && es[k].value.value == v
      && forall k' :: k < k' < |es| ==> !Writes(es[k'], t, item);
    EntryPayload(rows, shiftDate, shiftName, station, k);
    assert LastWriter(rows, shiftDate, shiftName, station, t, item, k);
  }

  /** Every cell holds the normalized `itemresult` of the last counted record
      with that column's donetime and that row's item, and `""` when there is
      none: later records overwrite earlier ones. */
  lemma ReportCell(rows: seq<Record>, shiftDate: string, shiftName: string, station: string, i: int, j: int)
    requires 0 <= i < |OrderedItems|
    requires 0 <= j < |BuildReport(rows, shiftDate, shiftName, station).columns|
    ensures var rep := BuildReport(rows, shiftDate, shiftName, station);
      var t, item := rep.columns[j], OrderedItems[i];
      && ((forall k :: 0 <= k < |rows| ==> !WritesCell(rows[k], shiftDate, shiftName, station, t, item)) ==>
            rep.matrix[i].values[j] == "")
      && ((exists k :: 0 <= k < |rows| && WritesCell(rows[k], shiftDate, shiftName, station, t, item)) ==>
            exists k :: LastWriter(rows, shiftDate, shiftName, station, t, item, k)
              && rep.matrix[i].values[j] == NormalizeValue(rows[k].itemresult))
  {
    var rep := BuildReport(rows, shiftDate, shiftName, station);
    var es := Entries(rows, shiftDate, shiftName, station);
    var t, item := rep.columns[j], OrderedItems[i];
    var v := rep.matrix[i].values[j];
    assert v == Cell(TallyOf(es), t, item);
    CellOfTally(rows, shiftDate, shiftName, station, t, item);
    WrittenInRecords(rows, shiftDate, shiftName, station, t, item);
    if Written(es, t, item) {
      LastWriteInRecords(rows, shiftDate, shiftName, station, t, item, v);
    }
  }

  /** With columns drawn from the tally's donetimes, the header is the
      first header recorded for the last column. */
  lemma HeaderOfTally(es: seq<Option<Entry>>, columns: seq<string>)
    requires multiset(columns) == multiset(TallyOf(es).order) && columns != []
    ensures FirstHeader(es, columns[|columns| - 1], HeaderFor(TallyOf(es), columns))
  {
    var s := TallyOf(es);
    var t := columns[|columns| - 1];
    TallyOrder(es);
    ReorderedDistinct(s.order, columns);
    assert t in s.meta;
    TallyMeta(es, t);
  }

  /** A first header among the entries is the header of the first counted
      record with that donetime. */
  lemma FirstHeaderOfRecords(rows: seq<Record>, shiftDate: string, shiftName: string, station: string,
                             t: string, h: Header)
    requires FirstHeader(Entries(rows, shiftDate, shiftName, station), t, h)
    ensures exists k :: FirstWithTime(rows, shiftDate, shiftName, station, t, k) && h == HeaderOf(rows[k])
  {
    var es := Entries(rows, shiftDate, shiftName, station);
    EntriesFeed(rows, shiftDate, shiftName, station, t, "");
    var k :| 0 <= k < |es| && Has(es[k], t) && es[k].value.header == h
      && forall k' :: 0 <= k' < k ==> !Has(es[k'], t);
    EntryPayload(rows, shiftDate, shiftName, station, k);
    assert FirstWithTime(rows, shiftDate, shiftName, station, t, k);
  }

  /** The header is that of the first counted record with the last column's
      donetime, and empty when there are no columns. */
  lemma ReportHeader(rows: seq<Record>, shiftDate: string, shiftName: string, station: string)
    ensures var rep := BuildReport(rows, shiftDate, shiftName, station);
      && (rep.columns == [] ==> rep.header == EmptyHeader)
      && (rep.columns != [] ==>
            exists k :: FirstWithTime(rows, shiftDate, shiftName, station, rep.columns[|rep.columns| - 1], k)
              && rep.header == HeaderOf(rows[k]))
  {
    var rep := BuildReport(rows, shiftDate, shiftName, station);
    var es := Entries(rows, shiftDate, shiftName, station);
    if rep.columns != [] {
      ColumnsOfTally(rows, shiftDate, shiftName, station);
      HeaderOfTally(es, rep.columns);
      FirstHeaderOfRecords(rows, shiftDate, shiftName, station, rep.columns[|rep.columns| - 1], rep.header);
    }
  }

  /** Columns with equal shift keys among the tally's donetimes keep the
      order in which their donetimes were first seen. */
  lemma ColumnsStableInTally(es: seq<Option<Entry>>, shiftName: string, x: string, y: string)
    requires Precedes(SortDonetimes(TallyOf(es).order, shiftName, ShiftStart), x, y)
    requires ShiftKey(shiftName, ShiftStart, x) == ShiftKey(shiftName, ShiftStart, y)
    ensures SeenBefore(es, x, y)
  {
    SortDonetimesStable(TallyOf(es).order, shiftName, ShiftStart, x, y);
    PrecedesInTally(es, x, y);
  }

  /** Two donetimes in order in the tally were first seen in that order. */
  lemma PrecedesInTally(es: seq<Option<Entry>>, x: string, y: string)
    requires Precedes(TallyOf(es).order, x, y)
    ensures SeenBefore(es, x, y)
  {
    var order := TallyOf(es).order;
    var a, b :| 0 <= a < b < |order| && order[a] == x && order[b] == y;
    TallyFirstSeen(es);
  }

  /** `SeenBefore` among the entries, read back on the records. */
  lemma SeenBeforeInRecords(rows: seq<Record>, shiftDate: string, shiftName: string, station: string, x: string, y: string)
    requires SeenBefore(Entries(rows, shiftDate, shiftName, station), x, y)
    ensures exists k :: 0 <= k < |rows| && CountedAt(rows[k], shiftDate, shiftName, station, x)
                        && forall k' :: 0 <= k' <= k ==> !CountedAt(rows[k'], shiftDate, shiftName, station, y)
  {
    var es := Entries(rows, shiftDate, shiftName, station);
    EntriesFeed(rows, shiftDate, shiftName, station, x, "");
    EntriesFeed(rows, shiftDate, shiftName, station, y, "");
    var k :| 0 <= k < |es| && Has(es[k], x) && forall k' :: 0 <= k' <= k ==> !Has(es[k'], y);
    assert CountedAt(rows[k], shiftDate, shiftName, station, x);
  }

  /** `sorted` is stable: two columns the shift key cannot tell apart (say
      `"6:00"` and `"06:00"`, or two unparsable donetimes) appear in the
      order their donetimes first occur among the counted records. */
  lemma ReportColumnsStable(rows: seq<Record>, shiftDate: string, shiftName: string, station: string, i: int, j: int)
    requires var columns := BuildReport(rows, shiftDate, shiftName, station).columns;
      && 0 <= i < j < |columns|
      && ShiftKey(shiftName, ShiftStart, columns[i]) == ShiftKey(shiftName, ShiftStart, columns[j])
    ensures var columns := BuildReport(rows, shiftDate, shiftName, station).columns;
      exists k :: 0 <= k < |rows| && CountedAt(rows[k], shiftDate, shiftName, station, columns[i])
        && forall k' :: 0 <= k' <= k ==> !CountedAt(rows[k'], shiftDate, shiftName, station, columns[j])
  {
    var columns := BuildReport(rows, shiftDate, shiftName, station).columns;
    var es := Entries(rows, shiftDate, shiftName, station);
    ColumnsOfTally(rows, shiftDate, shiftName, station);
    assert Precedes(columns, columns[i], columns[j]);
    ColumnsStableInTally(es, shiftName, columns[i], columns[j]);
    SeenBeforeInRecords(rows, shiftDate, shiftName, station, columns[i], columns[j]);
  }

  /** A record the report does not count (another shift, date or station,
      an empty donetime or an item outside the checklist) changes nothing,
      wherever it sits in the batch. */
  lemma UncountedRecordIgnored(a: seq<Record>, r: Record, b: seq<Record>,
                               shiftDate: string, shiftName: string, station: string)
    requires !Counted(r, shiftDate, shiftName, station)
    ensures BuildReport(a + [r] + b, shiftDate, shiftName, station) == BuildReport(a + b, shiftDate, shiftName, station)
  {
    var f := EntryFn(shiftDate, shiftName, station);
    MapAppend(f, a, [r]);
    MapAppend(f, a + [r], b);
    MapAppend(f, a, b);
    assert Map(f, [r]) == [None];
    TallySkip(Map(f, a), Map(f, b));
  }
}
