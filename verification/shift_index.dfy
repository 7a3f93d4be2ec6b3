/** app.py `build_shift_index`: the distinct (shiftDate, shift, station)
    groups of a batch of records, each with its latest donetime, most
    recent first. */
module ShiftIndex {
  import opened Wrappers
  import opened Records
  import opened Clock
  import opened Calendar
  import opened Sorting
  import opened Seqs

  /** One entry of the index: the trimmed key fields and the latest parsed
      donetime seen for them (`None` while no donetime of the group parsed). */
  datatype Group = Group(shiftDate: string, shift: string, station: string, lastTime: Option<TimeOfDay>)

  /** The dictionary key `(sd, sh, st)`. */
  datatype GroupKey = GroupKey(shiftDate: string, shift: string, station: string)

  function KeyOf(g: Group): GroupKey {
    GroupKey(g.shiftDate, g.shift, g.station)
  }

  /** A record takes part in the index only when its date, shift, station
      and donetime are all non-empty once trimmed. */
  predicate Indexed(r: Record) {
    Field(r.shiftDate) != "" && Field(r.shift) != "" && Field(r.station) != "" && Field(r.donetime) != ""
  }

  function RecordKey(r: Record): GroupKey {
    GroupKey(Field(r.shiftDate), Field(r.shift), Field(r.station))
  }

  /** `parse_hhmm(dt)` of the record's trimmed donetime. */
  function RecordTime(r: Record): (t: Option<TimeOfDay>)
    ensures t.Some? ==> t.value.Valid()
  {
    ParseHHMM(Field(r.donetime))
  }

  /** A record as the loop of `build_shift_index` sees it, once its fields
      are coerced: its key and parsed donetime, or `None` for a record the
      loop skips. */
  datatype Sighting = Sighting(key: GroupKey, time: Option<TimeOfDay>)

  function Sight(r: Record): (s: Option<Sighting>)
    ensures s.Some? <==> Indexed(r)
    ensures s.Some? ==> s.value.key == RecordKey(r) && s.value.time == RecordTime(r)
  {
    if Indexed(r) then Some(Sighting(RecordKey(r), RecordTime(r))) else None
  }

  function Sightings(rows: seq<Record>): (ss: seq<Option<Sighting>>)
    ensures |ss| == |rows|
    ensures forall k :: 0 <= k < |rows| ==> ss[k] == Sight(rows[k])
  {
    Map(Sight, rows)
  }

  /** The sighting feeds the group with key `key`. */
  predicate Feeds(s: Option<Sighting>, key: GroupKey) {
    s.Some? && s.value.key == key
  }

  /** `key in idx`: the position of the group with key `key`, if any. */
  function Find(gs: seq<Group>, key: GroupKey): (r: Option<nat>)
    ensures r.Some? ==> r.value < |gs| && KeyOf(gs[r.value]) == key
    ensures r.None? ==> forall i :: 0 <= i < |gs| ==> KeyOf(gs[i]) != key
  {
    if gs == [] then None
    else if KeyOf(gs[0]) == key then Some(0)
    else match Find(gs[1..], key)
      case Some(i) => Some(i + 1)
      case None => None
  }

  /** The update `if t and (last is None or t > last): last = t`: a present
      time replaces an absent or earlier one; `None` never replaces anything. */
  function Later(last: Option<TimeOfDay>, t: Option<TimeOfDay>): (r: Option<TimeOfDay>)
    ensures r == last || r == t
    ensures r.None? <==> last.None? && t.None?
    ensures t.Some? ==> Minutes(t.value) <= Minutes(r.value)
    ensures last.Some? ==> Minutes(last.value) <= Minutes(r.value)
  {
    if t.Some? && (last.None? || Minutes(t.value) > Minutes(last.value)) then t else last
  }

  /** One iteration of the loop of `build_shift_index`: a new key gets a
      group, a known key may get a later time, a skipped record does nothing. */
  function AddSighting(gs: seq<Group>, s: Option<Sighting>): seq<Group> {
    match s
    case None => gs
    case Some(Sighting(key, t)) =>
      match Find(gs, key)
      case None => gs + [Group(key.shiftDate, key.shift, key.station, t)]
      case Some(i) => gs[i := gs[i].(lastTime := Later(gs[i].lastTime, t))]
  }

  /** The loop itself, over the sightings in record order. */
  function CollectSightings(ss: seq<Option<Sighting>>): seq<Group> {
    if ss == [] then [] else AddSighting(CollectSightings(ss[..|ss| - 1]), ss[|ss| - 1])
  }

  /** `idx.values()` after the loop: the groups in order of first insertion. */
  function Collect(rows: seq<Record>): seq<Group> {
    CollectSightings(Sightings(rows))
  }

  /** Python's ordering of `(date, time)` pairs folded into one integer:
      dates by year, month and day, then the minute of the day. */
  function DateRank(d: Date): int {
    (d.year * 13 + d.month) * 32 + d.day
  }

  /** The sort key `(date or datetime.min, last_time or 00:00)`. */
  function Recency(g: Group): int {
    DateRank(DateOrMin(g.shiftDate)) * MinutesPerDay + Minutes(g.lastTime.GetOr(Midnight))
  }

  /** `reverse=True` on a stable sort: ascending by the negated key keeps
      equal keys in their original order, as Python does. */
  function NewestFirst(): Group -> int {
    g => -Recency(g)
  }

  /** app.py `build_shift_index`. */
  function BuildShiftIndex(rows: seq<Record>): (r: seq<Group>)
    ensures multiset(r) == multiset(Collect(rows))
    ensures forall i, j :: 0 <= i < j < |r| ==> Recency(r[j]) <= Recency(r[i])
    ensures forall k :: KeyClass(r, NewestFirst(), k) == KeyClass(Collect(rows), NewestFirst(), k)
  {
    SortByClasses(Collect(rows), NewestFirst());
    SortByPermutes(Collect(rows), NewestFirst());
    SortBy(Collect(rows), NewestFirst())
  }

  /** What one loop iteration does to the positions and keys of the groups:
      it keeps every key in place, appends a group only for a key it has not
      seen, and changes no group but the one its key names. */
  lemma AddSightingShape(gs: seq<Group>, s: Option<Sighting>)
    requires DistinctKeys(gs)
    ensures var gs' := AddSighting(gs, s);
      && (|gs'| == |gs| || |gs'| == |gs| + 1)
      && (forall i :: 0 <= i < |gs| ==> KeyOf(gs'[i]) == KeyOf(gs[i]))
      && (forall i :: 0 <= i < |gs| && !Feeds(s, KeyOf(gs[i])) ==> gs'[i] == gs[i])
      && (forall i :: 0 <= i < |gs| && Feeds(s, KeyOf(gs[i])) ==>
            gs'[i].lastTime == Later(gs[i].lastTime, s.value.time))
      && (|gs'| == |gs| + 1 ==>
            s.Some? && Find(gs, s.value.key).None?
            && gs'[|gs|] == Group(s.value.key.shiftDate, s.value.key.shift, s.value.key.station, s.value.time))
      && (s.Some? ==> exists i :: 0 <= i < |gs'| && KeyOf(gs'[i]) == s.value.key)
  {
    var gs' := AddSighting(gs, s);
    if s.Some? {
      var key, t := s.value.key, s.value.time;
      match Find(gs, key)
      case None =>
        assert gs' == gs + [Group(key.shiftDate, key.shift, key.station, t)];
        assert KeyOf(gs'[|gs|]) == key;
      case Some(i) =>
        assert gs' == gs[i := gs[i].(lastTime := Later(gs[i].lastTime, t))];
        assert KeyOf(gs'[i]) == key;
    }
  }

  /** No key occurs twice, as in a dictionary. */
  ghost predicate DistinctKeys(gs: seq<Group>) {
    forall i, j :: 0 <= i < j < |gs| ==> KeyOf(gs[i]) != KeyOf(gs[j])
  }

  lemma {:induction false} CollectSightingsDistinct(ss: seq<Option<Sighting>>)
    ensures DistinctKeys(CollectSightings(ss))
  {
    if ss != [] {
      var prev, last := ss[..|ss| - 1], ss[|ss| - 1];
      var gs0 := CollectSightings(prev);
      var gs := AddSighting(gs0, last);
      assert CollectSightings(ss) == gs;
      CollectSightingsDistinct(prev);
      AddSightingShape(gs0, last);
      forall i, j | 0 <= i < j < |gs| ensures KeyOf(gs[i]) != KeyOf(gs[j]) {
        if j < |gs0| {
          assert KeyOf(gs0[i]) != KeyOf(gs0[j]);
        } else {
          assert KeyOf(gs0[i]) != last.value.key;
        }
      }
    }
  }

  /** Some group has key `key`. */
  ghost predicate HasGroup(gs: seq<Group>, key: GroupKey) {
    exists i :: 0 <= i < |gs| && KeyOf(gs[i]) == key
  }

  /** Some sighting feeds the group with key `key`. */
  ghost predicate SeenIn(ss: seq<Option<Sighting>>, key: GroupKey) {
    exists k :: 0 <= k < |ss| && Feeds(ss[k], key)
  }

  lemma SeenInExtend(prev: seq<Option<Sighting>>, last: Option<Sighting>, key: GroupKey)
    ensures SeenIn(prev + [last], key) <==> SeenIn(prev, key) || Feeds(last, key)
  {
    var ss := prev + [last];
    if SeenIn(ss, key) && !Feeds(last, key) {
      var k :| 0 <= k < |ss| && Feeds(ss[k], key);
      assert k < |prev| && ss[k] == prev[k];
    }
    if SeenIn(prev, key) {
      var k :| 0 <= k < |prev| && Feeds(prev[k], key);
      assert ss[k] == prev[k];
    }
    if Feeds(last, key) {
      assert ss[|prev|] == last;
    }
  }

  /** One loop iteration adds the key of its sighting and no other. */
  lemma AddSightingKeys(gs: seq<Group>, s: Option<Sighting>, key: GroupKey)
    requires DistinctKeys(gs)
    ensures HasGroup(AddSighting(gs, s), key) <==> HasGroup(gs, key) || Feeds(s, key)
  {
    var gs' := AddSighting(gs, s);
    AddSightingShape(gs, s);
    if HasGroup(gs, key) {
      var i :| 0 <= i < |gs| && KeyOf(gs[i]) == key;
      assert KeyOf(gs'[i]) == key;
    }
    if HasGroup(gs', key) && !HasGroup(gs, key) {
      var i :| 0 <= i < |gs'| && KeyOf(gs'[i]) == key;
      assert i == |gs|;
    }
  }

  lemma {:induction false} CollectSightingsKeys(ss: seq<Option<Sighting>>, key: GroupKey)
    ensures HasGroup(CollectSightings(ss), key) <==> SeenIn(ss, key)
  {
    if ss != [] {
      var prev, last := ss[..|ss| - 1], ss[|ss| - 1];
      assert prev + [last] == ss;
      var gs0 := CollectSightings(prev);
      assert CollectSightings(ss) == AddSighting(gs0, last);
      CollectSightingsKeys(prev, key);
      CollectSightingsDistinct(prev);
      AddSightingKeys(gs0, last, key);
      SeenInExtend(prev, last, key);
    }
  }

  /** `last` is the latest time among the sightings of `key`: it is one of
      their times, no present time among them is later, and it is `None`
      only when none of them parsed. */
  ghost predicate IsLatest(ss: seq<Option<Sighting>>, key: GroupKey, last: Option<TimeOfDay>) {
    && (last.Some? ==> exists k :: 0 <= k < |ss| && Feeds(ss[k], key) && ss[k].value.time == last)
    && (forall k :: 0 <= k < |ss| && Feeds(ss[k], key) && ss[k].value.time.Some? ==>
          last.Some? && Minutes(ss[k].value.time.value) <= Minutes(last.value))
  }

  /** Every group carries the latest time of its sightings. */
  ghost predicate AllLatest(ss: seq<Option<Sighting>>, gs: seq<Group>) {
    forall i :: 0 <= i < |gs| ==> IsLatest(ss, KeyOf(gs[i]), gs[i].lastTime)
  }

  lemma {:induction false} CollectSightingsLatest(ss: seq<Option<Sighting>>)
    ensures AllLatest(ss, CollectSightings(ss))
  {
    if ss != [] {
      var prev, last := ss[..|ss| - 1], ss[|ss| - 1];
      var gs0 := CollectSightings(prev);
      var gs := AddSighting(gs0, last);
      assert CollectSightings(ss) == gs;
      CollectSightingsLatest(prev);
      CollectSightingsDistinct(prev);
      AddSightingShape(gs0, last);
      forall i | 0 <= i < |gs| ensures IsLatest(ss, KeyOf(gs[i]), gs[i].lastTime) {
        var key := KeyOf(gs[i]);
        if i < |gs0| {
          assert IsLatest(prev, key, gs0[i].lastTime);
          LatestExtend(prev, last, key, gs0[i].lastTime, gs[i].lastTime);
          assert prev + [last] == ss;
        } else {
          assert gs[i].lastTime == last.value.time;
          assert Find(gs0, key).None?;
          CollectSightingsKeys(prev, key);
          assert !SeenIn(prev, key);
          LatestFirst(prev, last, key);
          assert prev + [last] == ss;
        }
      }
    }
  }

  /** One more sighting: the latest time moves as `Later` moves it. */
  lemma LatestExtend(prev: seq<Option<Sighting>>, s: Option<Sighting>, key: GroupKey,
                     before: Option<TimeOfDay>, after: Option<TimeOfDay>)
    requires IsLatest(prev, key, before)
    requires Feeds(s, key) ==> after == Later(before, s.value.time)
    requires !Feeds(s, key) ==> after == before
    ensures IsLatest(prev + [s], key, after)
  {
    var ss := prev + [s];
    if after.Some? {
      if Feeds(s, key) && after == s.value.time {
        assert Feeds(ss[|prev|], key) && ss[|prev|].value.time == after;
      } else {
        assert after == before;
        var k :| 0 <= k < |prev| && Feeds(prev[k], key) && prev[k].value.time == before;
        assert ss[k] == prev[k];
      }
    }
    forall k | 0 <= k < |ss| && Feeds(ss[k], key) && ss[k].value.time.Some?
      ensures after.Some? && Minutes(ss[k].value.time.value) <= Minutes(after.value)
    {
      if k < |prev| {
        assert ss[k] == prev[k];
      }
    }
  }

  /** The first sighting of a key sets its time. */
  lemma LatestFirst(prev: seq<Option<Sighting>>, s: Option<Sighting>, key: GroupKey)
    requires !SeenIn(prev, key) && Feeds(s, key)
    ensures IsLatest(prev + [s], key, s.value.time)
  {
    var ss := prev + [s];
    assert ss[|prev|] == s;
    forall k | 0 <= k < |ss| && Feeds(ss[k], key) ensures k == |prev| {
    }
  }

  /** Group `a` was first seen before group `b`: some sighting of `a` comes
      before every sighting of `b`. */
  ghost predicate FirstSeenBefore(ss: seq<Option<Sighting>>, a: GroupKey, b: GroupKey) {
    exists k :: 0 <= k < |ss| && Feeds(ss[k], a) && forall k' :: 0 <= k' <= k ==> !Feeds(ss[k'], b)
  }

  /** The groups are in the order their keys were first seen, the
      insertion order of a Python dictionary. */
  ghost predicate InFirstSeenOrder(ss: seq<Option<Sighting>>, gs: seq<Group>) {
    forall i, j :: 0 <= i < j < |gs| ==> FirstSeenBefore(ss, KeyOf(gs[i]), KeyOf(gs[j]))
  }

  lemma {:induction false} CollectSightingsOrder(ss: seq<Option<Sighting>>)
    ensures InFirstSeenOrder(ss, CollectSightings(ss))
  {
    if ss != [] {
      var prev, last := ss[..|ss| - 1], ss[|ss| - 1];
      var gs0 := CollectSightings(prev);
      var gs := AddSighting(gs0, last);
      assert CollectSightings(ss) == gs;
      CollectSightingsOrder(prev);
      CollectSightingsDistinct(prev);
      AddSightingShape(gs0, last);
      forall i, j | 0 <= i < j < |gs| ensures FirstSeenBefore(ss, KeyOf(gs[i]), KeyOf(gs[j])) {
        var a, b := KeyOf(gs[i]), KeyOf(gs[j]);
        if j < |gs0| {
          assert FirstSeenBefore(prev, a, b);
          var k :| 0 <= k < |prev| && Feeds(prev[k], a) && forall k' :: 0 <= k' <= k ==> !Feeds(prev[k'], b);
          assert ss[k] == prev[k];
          assert forall k' :: 0 <= k' <= k ==> ss[k'] == prev[k'];
        } else {
          CollectSightingsKeys(prev, a);
          CollectSightingsKeys(prev, b);
          assert HasGroup(gs0, a);
          var k :| 0 <= k < |prev| && Feeds(prev[k], a);
          assert ss[k] == prev[k];
          assert forall k' :: 0 <= k' <= k ==> ss[k'] == prev[k'];
        }
      }
    }
  }

  /** A skipped record anywhere in the batch changes nothing. */
  lemma {:induction false} CollectSightingsSkip(a: seq<Option<Sighting>>, b: seq<Option<Sighting>>)
    ensures CollectSightings(a + [None] + b) == CollectSightings(a + b)
    decreases |b|
  {
    if b == [] {
      assert (a + [None])[..|a|] == a;
      assert a + [None] + b == a + [None] && a + b == a;
    } else {
      var b', x := b[..|b| - 1], b[|b| - 1];
      CollectSightingsSkip(a, b');
      assert (a + [None] + b)[..|a + [None] + b| - 1] == a + [None] + b';
      assert (a + b)[..|a + b| - 1] == a + b';
    }
  }

  // ---------------------------------------------------------------------
  // The index in terms of the records.

  /** The record takes part in the index under key `key`. */
  predicate RecordFeeds(r: Record, key: GroupKey) {
    Indexed(r) && RecordKey(r) == key
  }

  lemma SightingsFeed(rows: seq<Record>, key: GroupKey)
    ensures forall k :: 0 <= k < |rows| ==> (Feeds(Sightings(rows)[k], key) <==> RecordFeeds(rows[k], key))
  {
  }

  /** The index holds exactly the collected groups. */
  lemma IndexMembers(rows: seq<Record>)
    ensures forall g :: g in BuildShiftIndex(rows) <==> g in Collect(rows)
  {
    var r, gs := BuildShiftIndex(rows), Collect(rows);
    forall g ensures g in r <==> g in gs {
      assert g in r <==> g in multiset(r);
      assert g in gs <==> g in multiset(gs);
    }
  }

  /** Some sighting feeds `key` exactly when some record does. */
  lemma SeenInRecords(rows: seq<Record>, key: GroupKey)
    ensures SeenIn(Sightings(rows), key) <==> exists k :: 0 <= k < |rows| && RecordFeeds(rows[k], key)
  {
    SightingsFeed(rows, key);
  }

  /** The index has a group for `key` exactly when the loop created one. */
  lemma IndexHasGroup(rows: seq<Record>, key: GroupKey)
    ensures (exists g :: g in BuildShiftIndex(rows) && KeyOf(g) == key) <==> HasGroup(Collect(rows), key)
  {
    var gs := Collect(rows);
    IndexMembers(rows);
    if HasGroup(gs, key) {
      var i :| 0 <= i < |gs| && KeyOf(gs[i]) == key;
      assert gs[i] in gs;
    }
    if exists g :: g in BuildShiftIndex(rows) && KeyOf(g) == key {
      var g :| g in BuildShiftIndex(rows) && KeyOf(g) == key;
      var i :| 0 <= i < |gs| && gs[i] == g;
    }
  }

  /** There is a group for `key` exactly when some record with non-empty
      date, shift, station and donetime carries that key. */
  lemma ShiftIndexKeys(rows: seq<Record>, key: GroupKey)
    ensures (exists g :: g in BuildShiftIndex(rows) && KeyOf(g) == key)
      <==> (exists k :: 0 <= k < |rows| && RecordFeeds(rows[k], key))
  {
    IndexHasGroup(rows, key);
    CollectSightingsKeys(Sightings(rows), key);
    SeenInRecords(rows, key);
  }

  /** No two groups of the index share a (shiftDate, shift, station) key. */
  lemma ShiftIndexDistinct(rows: seq<Record>)
    ensures DistinctKeys(BuildShiftIndex(rows))
  {
    var gs, r := Collect(rows), BuildShiftIndex(rows);
    CollectSightingsDistinct(Sightings(rows));
    assert InjectiveOn(gs, KeyOf);
    PermutationKeepsInjective(gs, r, KeyOf);
    assert InjectiveOn(r, KeyOf);
  }

  /** Every group's `last_time` is the latest parsed donetime among its
      records: one of them, not earlier than any, and `None` only when none
      of them parsed. */
  lemma ShiftIndexLatest(rows: seq<Record>, g: Group)
    requires g in BuildShiftIndex(rows)
    ensures g.lastTime.Some? ==>
      exists k :: 0 <= k < |rows| && RecordFeeds(rows[k], KeyOf(g)) && RecordTime(rows[k]) == g.lastTime
    ensures forall k :: 0 <= k < |rows| && RecordFeeds(rows[k], KeyOf(g)) && RecordTime(rows[k]).Some? ==>
      g.lastTime.Some? && Minutes(RecordTime(rows[k]).value) <= Minutes(g.lastTime.value)
  {
    var ss, gs := Sightings(rows), Collect(rows);
    assert g in multiset(gs);
    var i :| 0 <= i < |gs| && gs[i] == g;
    CollectSightingsLatest(ss);
    assert IsLatest(ss, KeyOf(g), g.lastTime);
    SightingsFeed(rows, KeyOf(g));
    if g.lastTime.Some? {
      var k :| 0 <= k < |ss| && Feeds(ss[k], KeyOf(g)) && ss[k].value.time == g.lastTime;
      assert RecordFeeds(rows[k], KeyOf(g)) && RecordTime(rows[k]) == g.lastTime;
    }
    forall k | 0 <= k < |rows| && RecordFeeds(rows[k], KeyOf(g)) && RecordTime(rows[k]).Some?
      ensures g.lastTime.Some? && Minutes(RecordTime(rows[k]).value) <= Minutes(g.lastTime.value)
    {
      assert Feeds(ss[k], KeyOf(g)) && ss[k].value.time == RecordTime(rows[k]);
    }
  }

  /** A record with an empty date, shift, station or donetime neither
      creates nor updates a group, wherever it sits in the batch. */
  lemma UnindexedRecordIgnored(a: seq<Record>, r: Record, b: seq<Record>)
    requires !Indexed(r)
    ensures BuildShiftIndex(a + [r] + b) == BuildShiftIndex(a + b)
  {
    MapAppend(Sight, a, [r]);
    MapAppend(Sight, a + [r], b);
    MapAppend(Sight, a, b);
    assert Sightings([r]) == [None];
    CollectSightingsSkip(Sightings(a), Sightings(b));
  }

  lemma DateRankOrder(a: Date, b: Date)
    requires ValidDate(a) && ValidDate(b)
    ensures DateRank(a) < DateRank(b) <==> DateBefore(a, b)
    ensures DateRank(a) == DateRank(b) <==> a == b
  {
    assert DateRank(a) == a.year * 416 + (a.month * 32 + a.day);
    assert DateRank(b) == b.year * 416 + (b.month * 32 + b.day);
    if a.year < b.year {
      assert a.year * 416 + 416 <= b.year * 416;
    } else if b.year < a.year {
      assert b.year * 416 + 416 <= a.year * 416;
    }
  }

  /** The time part of a group's sort key is a valid time of day. */
  predicate TimeValid(g: Group) {
    g.lastTime.Some? ==> g.lastTime.value.Valid()
  }

  /** The sort key orders groups by date, and by time within a date. */
  lemma RankOrder(d: Date, m: nat, e: Date, n: nat)
    requires ValidDate(d) && ValidDate(e) && m < MinutesPerDay && n < MinutesPerDay
    ensures DateRank(d) * MinutesPerDay + m <= DateRank(e) * MinutesPerDay + n <==>
      DateBefore(d, e) || (d == e && m <= n)
  {
    DateRankOrder(d, e);
    assert MinutesPerDay == 1440;
    var rd, re := DateRank(d), DateRank(e);
    if rd < re {
      assert rd * MinutesPerDay + MinutesPerDay <= re * MinutesPerDay;
    } else if re < rd {
      assert re * MinutesPerDay + MinutesPerDay <= rd * MinutesPerDay;
    }
  }

  lemma RecencyOrder(g: Group, h: Group)
    requires TimeValid(g) && TimeValid(h)
    ensures Recency(g) <= Recency(h) <==>
      var dg, dh := DateOrMin(g.shiftDate), DateOrMin(h.shiftDate);
      DateBefore(dg, dh)
      || (dg == dh && Minutes(g.lastTime.GetOr(Midnight)) <= Minutes(h.lastTime.GetOr(Midnight)))
  {
    RankOrder(DateOrMin(g.shiftDate), Minutes(g.lastTime.GetOr(Midnight)),
              DateOrMin(h.shiftDate), Minutes(h.lastTime.GetOr(Midnight)));
  }

  lemma ShiftIndexTimesValid(rows: seq<Record>, g: Group)
    requires g in BuildShiftIndex(rows)
    ensures TimeValid(g)
  {
    ShiftIndexLatest(rows, g);
  }

  /** Most recent first: a group never precedes one with a later date, and
      within one date never one with a later `last_time`; an unparsable date
      counts as `0001-01-01` and a missing time as 00:00. */
  lemma ShiftIndexNewestFirst(rows: seq<Record>, i: int, j: int)
    requires 0 <= i < j < |BuildShiftIndex(rows)|
    ensures var r := BuildShiftIndex(rows);
      var di, dj := DateOrMin(r[i].shiftDate), DateOrMin(r[j].shiftDate);
      && !DateBefore(di, dj)
      && (di == dj ==> Minutes(r[j].lastTime.GetOr(Midnight)) <= Minutes(r[i].lastTime.GetOr(Midnight)))
  {
    var r := BuildShiftIndex(rows);
    ShiftIndexTimesValid(rows, r[i]);
    ShiftIndexTimesValid(rows, r[j]);
    RecencyOrder(r[j], r[i]);
  }
}
