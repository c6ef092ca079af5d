/**
 * The windowed group-and-sum join of data_processing.py (`pivot_services`):
 * for one entity record, the service transactions of that entity dated in
 * the record's half-open window [LastScoreDate, ScoreDate) are grouped by
 * Description, their Totals summed per group, and the sums appended to the
 * record's own fields.
 */
module DataProcessing {
  import opened Lexicographic

  datatype Option<T> = None | Some(value: T)

  /** A timestamp after `to_datetime(..., errors='coerce')`: a day number, or None for NaT. */
  type Stamp = Option<int>

  /** An EntityID cell: the identifier, or None for an empty cell that pandas reads as NaN. */
  type EntityId = Option<string>

  /** One row of the service table (columns EntityID, Date, Description, Total); Total in cents. */
  datatype ServiceEntry = ServiceEntry(entityId: EntityId, date: Stamp, description: string, total: int)

  /** A cell of an entity record. */
  datatype Value = Text(text: string) | Amount(amount: int) | Timestamp(stamp: Stamp) | Missing

  /** One (column label, value) entry of a row Series. */
  datatype Field = Field(key: string, value: Value)

  /**
   * An entity record as `apply(..., axis=1)` hands it over: its index label
   * `name`, the typed values of the three columns the join reads, and every
   * column of the record, in order.
   */
  datatype Row = Row(name: int, entityId: EntityId, lastScoreDate: Stamp, scoreDate: Stamp, fields: seq<Field>)

  /** One group of the groupby result: a Description and the sum of its Totals. */
  datatype Group = Group(description: string, total: int)

  // ---------------------------------------------------------------------------
  // Filters (data_processing.py:29 and :31)
  // ---------------------------------------------------------------------------

  /** `EntityID == EntityID`; false when either side is NaN. */
  predicate SameEntity(a: EntityId, b: EntityId)
  {
    a.Some? && b.Some? && a.value == b.value
  }

  /** `Date >= LastScoreDate`; false when either side is NaT. */
  predicate AtOrAfter(d: Stamp, start: Stamp)
  {
    d.Some? && start.Some? && d.value >= start.value
  }

  /** `Date < ScoreDate`; false when either side is NaT. */
  predicate Before(d: Stamp, end: Stamp)
  {
    d.Some? && end.Some? && d.value < end.value
  }

  predicate InWindow(d: Stamp, start: Stamp, end: Stamp)
  {
    AtOrAfter(d, start) && Before(d, end)
  }

  /** Whether a service entry survives both masks for this record. */
  predicate Matches(row: Row, e: ServiceEntry)
  {
    SameEntity(e.entityId, row.entityId) && InWindow(e.date, row.lastScoreDate, row.scoreDate)
  }

  /** `services[services.EntityID == id]`: every entry of entity `id`, and no other; nothing when `id` is NaN. */
  function ClientServices(id: EntityId, services: seq<ServiceEntry>): (r: seq<ServiceEntry>)
    ensures forall e :: multiset(r)[e] == if SameEntity(e.entityId, id) then multiset(services)[e] else 0
  {
    if |services| == 0 then []
    else
      assert services == [services[0]] + services[1..];
      var rest := ClientServices(id, services[1..]);
      if SameEntity(services[0].entityId, id) then [services[0]] + rest else rest
  }

  /** `entries[(entries.Date >= start) & (entries.Date < end)]`: exactly the entries dated in the window. */
  function TimeFrame(start: Stamp, end: Stamp, entries: seq<ServiceEntry>): (r: seq<ServiceEntry>)
    ensures forall e :: multiset(r)[e] == if InWindow(e.date, start, end) then multiset(entries)[e] else 0
  {
    if |entries| == 0 then []
    else
      assert entries == [entries[0]] + entries[1..];
      var rest := TimeFrame(start, end, entries[1..]);
      if InWindow(entries[0].date, start, end) then [entries[0]] + rest else rest
  }

  /** The `time_frame` of a record: the entries that pass both masks, each as often as in the table. */
  function Matched(row: Row, services: seq<ServiceEntry>): (r: seq<ServiceEntry>)
    ensures forall e :: multiset(r)[e] == if Matches(row, e) then multiset(services)[e] else 0
  {
    TimeFrame(row.lastScoreDate, row.scoreDate, ClientServices(row.entityId, services))
  }

  // ---------------------------------------------------------------------------
  // Reference sums
  // ---------------------------------------------------------------------------

  /** The sum of Total over the entries of `entries` whose Description is `d`. */
  function DescriptionTotal(entries: seq<ServiceEntry>, d: string): int
  {
    if |entries| == 0 then 0
    else (if entries[0].description == d then entries[0].total else 0) + DescriptionTotal(entries[1..], d)
  }

  function Descriptions(entries: seq<ServiceEntry>): set<string>
  {
    set e | e in entries :: e.description
  }

  /** The per-description sums of `entries`, as a dictionary. */
  function Totals(entries: seq<ServiceEntry>): map<string, int>
  {
    map d | d in Descriptions(entries) :: DescriptionTotal(entries, d)
  }

  /**
   * The independent statement of what a record's column `d` should hold:
   * the sum of Total over the service table's entries for this entity, in
   * this window, with Description `d`.
   */
  function WindowTotal(row: Row, services: seq<ServiceEntry>, d: string): int
  {
    if |services| == 0 then 0
    else
      (if Matches(row, services[0]) && services[0].description == d then services[0].total else 0)
      + WindowTotal(row, services[1..], d)
  }

  // ---------------------------------------------------------------------------
  // groupby('Description')['Total'].agg(sum) (data_processing.py:34)
  // ---------------------------------------------------------------------------

  /** The dictionary a sequence of groups stands for (an earlier group wins a repeated key). */
  function AsMap(g: seq<Group>): map<string, int>
  {
    if |g| == 0 then map[] else AsMap(g[1..])[g[0].description := g[0].total]
  }

  /** Groups in strictly ascending Description order, hence each Description once. */
  predicate Ascending(g: seq<Group>)
  {
    |g| == 0 ||
    ((forall k :: k in AsMap(g[1..]) ==> Less(g[0].description, k)) && Ascending(g[1..]))
  }

  function Get(m: map<string, int>, d: string): int
  {
    if d in m then m[d] else 0
  }

  /** Adds one Total to the group of `d`, opening that group at its sorted place if needed. */
  function AddTo(g: seq<Group>, d: string, t: int): seq<Group>
  {
    if |g| == 0 then [Group(d, t)]
    else if g[0].description == d then [Group(d, g[0].total + t)] + g[1..]
    else if Less(d, g[0].description) then [Group(d, t)] + g
    else [g[0]] + AddTo(g[1..], d, t)
  }

  /** The groupby-sum of `entries`: one group per Description, keys sorted. */
  function GroupSum(entries: seq<ServiceEntry>): seq<Group>
  {
    if |entries| == 0 then []
    else AddTo(GroupSum(entries[1..]), entries[0].description, entries[0].total)
  }

  // ---------------------------------------------------------------------------
  // pivot_services (data_processing.py:25-50) and the driver (:57)
  // ---------------------------------------------------------------------------

  /** The `sums` Series as row fields. */
  function SumFields(sums: seq<Group>): seq<Field>
  {
    seq(|sums|, i requires 0 <= i < |sums| => Field(sums[i].description, Amount(sums[i].total)))
  }

  /**
   * `pivot_services(row, services)`: the record followed by one field per
   * Description among its matching entries, holding that Description's sum,
   * under the record's own name.
   */
  function PivotServices(row: Row, services: seq<ServiceEntry>): (r: Row)
    ensures r.name == row.name && r.entityId == row.entityId
    ensures r.lastScoreDate == row.lastScoreDate && r.scoreDate == row.scoreDate
    ensures |r.fields| >= |row.fields| && r.fields[..|row.fields|] == row.fields
  {
    var clientServices := ClientServices(row.entityId, services);
    var timeFrame := TimeFrame(row.lastScoreDate, row.scoreDate, clientServices);
    var sums := GroupSum(timeFrame);
    row.(fields := row.fields + SumFields(sums))
  }

  /** The `sums` of a record: the groupby-sum of its `time_frame`. */
  function Sums(row: Row, services: seq<ServiceEntry>): seq<Group>
  {
    GroupSum(Matched(row, services))
  }

  /** The fields `pivot_services` appends to a record. */
  function Appended(row: Row, services: seq<ServiceEntry>): seq<Field>
  {
    PivotServices(row, services).fields[|row.fields|..]
  }

  /** `om.apply(pivot_services, axis=1)`: one output per record, in record order. */
  function ApplyToRecords(rows: seq<Row>, services: seq<ServiceEntry>): (r: seq<Row>)
    ensures |r| == |rows|
    ensures forall i :: 0 <= i < |r| ==>
      r[i].name == rows[i].name && |r[i].fields| >= |rows[i].fields| && r[i].fields[..|rows[i].fields|] == rows[i].fields
  {
    seq(|rows|, i requires 0 <= i < |rows| => PivotServices(rows[i], services))
  }

  // ---------------------------------------------------------------------------
  // Lemmas: sums
  // ---------------------------------------------------------------------------

  lemma {:induction false} DescriptionTotalAbsent(entries: seq<ServiceEntry>, d: string)
    requires d !in Descriptions(entries)
    ensures DescriptionTotal(entries, d) == 0
  {
    if |entries| > 0 {
      assert entries[0] in entries;
      assert Descriptions(entries[1..]) <= Descriptions(entries) by {
        forall e | e in entries[1..] ensures e in entries { }
      }
      DescriptionTotalAbsent(entries[1..], d);
    }
  }

  lemma {:induction false} DescriptionTotalConcat(u: seq<ServiceEntry>, v: seq<ServiceEntry>, d: string)
    ensures DescriptionTotal(u + v, d) == DescriptionTotal(u, d) + DescriptionTotal(v, d)
  {
    if |u| > 0 {
      assert (u + v)[1..] == u[1..] + v;
      DescriptionTotalConcat(u[1..], v, d);
    } else {
      assert u + v == v;
    }
  }

  /** Taking out the entry at `j` subtracts its contribution. */
  lemma DescriptionTotalRemove(b: seq<ServiceEntry>, j: nat, d: string)
    requires j < |b|
    ensures DescriptionTotal(b, d) ==
      (if b[j].description == d then b[j].total else 0) + DescriptionTotal(b[..j] + b[j + 1..], d)
  {
    var u, v := b[..j], b[j + 1..];
    assert b == u + ([b[j]] + v);
    DescriptionTotalConcat(u, [b[j]] + v, d);
    DescriptionTotalConcat(u, v, d);
    assert ([b[j]] + v)[1..] == v;
  }

  lemma MultisetRemove(b: seq<ServiceEntry>, j: nat)
    requires j < |b|
    ensures multiset(b[..j] + b[j + 1..]) == multiset(b) - multiset{b[j]}
  {
    assert b == b[..j] + [b[j]] + b[j + 1..];
  }

  /** A per-description sum does not depend on the order of the entries. */
  lemma {:induction false} DescriptionTotalPermutation(a: seq<ServiceEntry>, b: seq<ServiceEntry>, d: string)
    requires multiset(a) == multiset(b)
    ensures DescriptionTotal(a, d) == DescriptionTotal(b, d)
    decreases |a|
  {
    if |a| == 0 {
      assert |b| == |multiset(b)| == 0;
    } else {
      var x := a[0];
      assert x in multiset(b);
      var j :| 0 <= j < |b| && b[j] == x;
      DescriptionTotalRemove(b, j, d);
      MultisetRemove(b, j);
      assert a == [x] + a[1..];
      assert multiset(a[1..]) == multiset(a) - multiset{x};
      DescriptionTotalPermutation(a[1..], b[..j] + b[j + 1..], d);
    }
  }

  /** The rows surviving both masks, head first. */
  lemma MatchedCons(row: Row, services: seq<ServiceEntry>)
    requires |services| > 0
    ensures Matched(row, services) ==
      (if Matches(row, services[0]) then [services[0]] else []) + Matched(row, services[1..])
  {
  }

  /** The groupby sum of the matched entries agrees with the reference WindowTotal. */
  lemma {:induction false} MatchedTotalIsWindowTotal(row: Row, services: seq<ServiceEntry>, d: string)
    ensures DescriptionTotal(Matched(row, services), d) == WindowTotal(row, services, d)
  {
    if |services| > 0 {
      MatchedCons(row, services);
      var head := if Matches(row, services[0]) then [services[0]] else [];
      DescriptionTotalConcat(head, Matched(row, services[1..]), d);
      MatchedTotalIsWindowTotal(row, services[1..], d);
    }
  }

  lemma {:induction false} WindowTotalConcat(row: Row, u: seq<ServiceEntry>, v: seq<ServiceEntry>, d: string)
    ensures WindowTotal(row, u + v, d) == WindowTotal(row, u, d) + WindowTotal(row, v, d)
  {
    if |u| > 0 {
      assert (u + v)[1..] == u[1..] + v;
      WindowTotalConcat(row, u[1..], v, d);
    } else {
      assert u + v == v;
    }
  }

  // ---------------------------------------------------------------------------
  // Lemmas: groups
  // ---------------------------------------------------------------------------

  /** Every key of the dictionary is the Description of some group, and conversely. */
  lemma {:induction false} AsMapKeys(g: seq<Group>)
    ensures forall i :: 0 <= i < |g| ==> g[i].description in AsMap(g)
    ensures forall k :: k in AsMap(g) ==> exists i :: 0 <= i < |g| && g[i].description == k
  {
    if |g| > 0 {
      AsMapKeys(g[1..]);
      forall i | 0 < i < |g| ensures g[i].description in AsMap(g) {
        assert g[i] == g[1..][i - 1];
      }
      forall k | k in AsMap(g) ensures exists i :: 0 <= i < |g| && g[i].description == k {
        if k != g[0].description {
          assert k in AsMap(g[1..]);
          var i :| 0 <= i < |g[1..]| && g[1..][i].description == k;
          assert g[i + 1].description == k;
        }
      }
    }
  }

  /** In an ascending sequence each group's total is what the dictionary holds for its key. */
  lemma {:induction false} AscendingAt(g: seq<Group>)
    requires Ascending(g)
    ensures forall i :: 0 <= i < |g| ==> g[i].description in AsMap(g) && AsMap(g)[g[i].description] == g[i].total
    ensures forall i, j :: 0 <= i < j < |g| ==> Less(g[i].description, g[j].description)
  {
    if |g| > 0 {
      AscendingAt(g[1..]);
      AsMapKeys(g[1..]);
      forall i | 0 < i < |g|
        ensures g[i].description in AsMap(g) && AsMap(g)[g[i].description] == g[i].total
        ensures Less(g[0].description, g[i].description)
      {
        assert g[i] == g[1..][i - 1];
        assert Less(g[0].description, g[i].description);
        LessIrreflexive(g[0].description);
      }
      forall i, j | 0 <= i < j < |g| ensures Less(g[i].description, g[j].description) {
        if i > 0 {
          assert g[i] == g[1..][i - 1] && g[j] == g[1..][j - 1];
        }
      }
    }
  }

  /** AddTo keeps the groups ascending and adds `t` to the entry for `d` in the dictionary. */
  lemma {:induction false} AddToCorrect(g: seq<Group>, d: string, t: int)
    requires Ascending(g)
    ensures Ascending(AddTo(g, d, t))
    ensures AsMap(AddTo(g, d, t)) == AsMap(g)[d := Get(AsMap(g), d) + t]
  {
    if |g| == 0 {
    } else if g[0].description == d {
      var r := [Group(d, g[0].total + t)] + g[1..];
      assert r[1..] == g[1..];
    } else if Less(d, g[0].description) {
      AddToFront(g, d, t);
    } else {
      LessTotal(d, g[0].description);
      AddToCorrect(g[1..], d, t);
      AddToLater(g, d, t);
    }
  }

  /** A Description below every key opens a new first group. */
  lemma AddToFront(g: seq<Group>, d: string, t: int)
    requires Ascending(g) && |g| > 0 && Less(d, g[0].description)
    ensures Ascending([Group(d, t)] + g)
    ensures d !in AsMap(g) && AsMap([Group(d, t)] + g) == AsMap(g)[d := t]
  {
    var r := [Group(d, t)] + g;
    assert r[1..] == g;
    forall k | k in AsMap(g) ensures Less(d, k) {
      if k != g[0].description {
        LessTransitive(d, g[0].description, k);
      }
    }
    LessIrreflexive(d);
  }

  /** A Description above the first key leaves the first group in front of the rest. */
  lemma AddToLater(g: seq<Group>, d: string, t: int)
    requires Ascending(g) && |g| > 0 && Less(g[0].description, d)
    requires Ascending(AddTo(g[1..], d, t))
    requires AsMap(AddTo(g[1..], d, t)) == AsMap(g[1..])[d := Get(AsMap(g[1..]), d) + t]
    ensures Ascending([g[0]] + AddTo(g[1..], d, t))
    ensures AsMap([g[0]] + AddTo(g[1..], d, t)) == AsMap(g)[d := Get(AsMap(g), d) + t]
  {
    var r := [g[0]] + AddTo(g[1..], d, t);
    assert r[1..] == AddTo(g[1..], d, t);
    LessIrreflexive(d);
    assert d != g[0].description;
    assert Get(AsMap(g), d) == Get(AsMap(g[1..]), d);
  }

  /**
   * groupby-sum: the groups are in ascending Description order and, as a
   * dictionary, map each Description present to the sum of its Totals.
   */
  lemma {:induction false} GroupSumCorrect(entries: seq<ServiceEntry>)
    ensures Ascending(GroupSum(entries))
    ensures AsMap(GroupSum(entries)) == Totals(entries)
  {
    if |entries| > 0 {
      assert GroupSum(entries) == AddTo(GroupSum(entries[1..]), entries[0].description, entries[0].total);
      GroupSumCorrect(entries[1..]);
      AddToCorrect(GroupSum(entries[1..]), entries[0].description, entries[0].total);
      TotalsCons(entries);
    }
  }

  /** Taking in one more entry adds its Total to its Description's sum. */
  lemma TotalsCons(entries: seq<ServiceEntry>)
    requires |entries| > 0
    ensures Totals(entries) == Totals(entries[1..])[entries[0].description :=
      Get(Totals(entries[1..]), entries[0].description) + entries[0].total]
  {
    DescriptionsCons(entries);
    forall k | k in Descriptions(entries)
      ensures DescriptionTotal(entries, k)
           == Get(Totals(entries[1..]), k) + (if k == entries[0].description then entries[0].total else 0)
    {
      if k !in Descriptions(entries[1..]) {
        DescriptionTotalAbsent(entries[1..], k);
      }
    }
    assert Totals(entries).Keys == Totals(entries[1..]).Keys + {entries[0].description};
  }

  /** The Descriptions of a table are its first entry's and those of the rest. */
  lemma DescriptionsCons(entries: seq<ServiceEntry>)
    requires |entries| > 0
    ensures Descriptions(entries) == Descriptions(entries[1..]) + {entries[0].description}
  {
    assert entries == [entries[0]] + entries[1..];
  }

  /** Two ascending group sequences that stand for the same dictionary are equal. */
  lemma {:induction false} AscendingUnique(g1: seq<Group>, g2: seq<Group>)
    requires Ascending(g1) && Ascending(g2) && AsMap(g1) == AsMap(g2)
    ensures g1 == g2
  {
    assert |g1| > 0 ==> g1[0].description in AsMap(g1);
    assert |g2| > 0 ==> g2[0].description in AsMap(g2);
    if |g1| > 0 && |g2| > 0 {
      var k1, k2 := g1[0].description, g2[0].description;
      if k1 != k2 {
        assert Less(k2, k1) by { assert k1 in AsMap(g2); }
        assert Less(k1, k2) by { assert k2 in AsMap(g1); }
        LessTotal(k1, k2);
        assert false;
      }
      AscendingTail(g1);
      AscendingTail(g2);
      AscendingUnique(g1[1..], g2[1..]);
      assert g1 == [g1[0]] + g1[1..] && g2 == [g2[0]] + g2[1..];
    }
  }

  /** Without its first group an ascending sequence stands for the dictionary minus the first key. */
  lemma AscendingTail(g: seq<Group>)
    requires Ascending(g) && |g| > 0
    ensures AsMap(g[1..]) == AsMap(g) - {g[0].description}
  {
    var k0, m := g[0].description, AsMap(g[1..]);
    LessIrreflexive(k0);
    assert k0 !in m;
    assert AsMap(g) == m[k0 := g[0].total];
    assert m.Keys == (AsMap(g) - {k0}).Keys;
    forall k | k in m ensures m[k] == (AsMap(g) - {k0})[k] {
      assert k != k0;
    }
  }

  /** The groupby-sum does not depend on the order of the entries. */
  lemma GroupSumPermutation(a: seq<ServiceEntry>, b: seq<ServiceEntry>)
    requires multiset(a) == multiset(b)
    ensures GroupSum(a) == GroupSum(b)
  {
    GroupSumCorrect(a);
    GroupSumCorrect(b);
    assert Descriptions(a) == Descriptions(b) by {
      forall e ensures e in a <==> e in b {
        assert e in a <==> e in multiset(a);
        assert e in b <==> e in multiset(b);
      }
    }
    forall d | d in Descriptions(a) ensures DescriptionTotal(a, d) == DescriptionTotal(b, d) {
      DescriptionTotalPermutation(a, b, d);
    }
    AscendingUnique(GroupSum(a), GroupSum(b));
  }

  // ---------------------------------------------------------------------------
  // Lemmas: pivot_services
  // ---------------------------------------------------------------------------

  /**
   * The appended fields are in ascending Description order; their labels are
   * exactly the Descriptions of the matching entries; each holds the sum of
   * Total over the matching entries with that Description.
   */
  lemma AppendedIsWindowSums(row: Row, services: seq<ServiceEntry>)
    ensures forall i, j :: 0 <= i < j < |Appended(row, services)| ==>
      Less(Appended(row, services)[i].key, Appended(row, services)[j].key)
    ensures (set i | 0 <= i < |Appended(row, services)| :: Appended(row, services)[i].key)
         == (set e | e in services && Matches(row, e) :: e.description)
    ensures forall i :: 0 <= i < |Appended(row, services)| ==>
      Appended(row, services)[i].value == Amount(WindowTotal(row, services, Appended(row, services)[i].key))
  {
    var sums := Sums(row, services);
    var app := Appended(row, services);
    AppendedIsSumFields(row, services);
    SumsAscending(row, services);
    SumsKeys(row, services);
    SumsValues(row, services);
    assert (set i | 0 <= i < |app| :: app[i].key) == (set i | 0 <= i < |sums| :: sums[i].description);
  }

  /** The appended fields are the groups of `sums`, one for one and in order, each labelled by its Description. */
  lemma AppendedIsSumFields(row: Row, services: seq<ServiceEntry>)
    ensures |Appended(row, services)| == |Sums(row, services)|
    ensures forall i :: 0 <= i < |Appended(row, services)| ==>
      Appended(row, services)[i] == Field(Sums(row, services)[i].description, Amount(Sums(row, services)[i].total))
  {
    assert Appended(row, services) == SumFields(Sums(row, services));
  }

  /** One appended field, read off its group. */
  lemma AppendedAt(row: Row, services: seq<ServiceEntry>, i: nat)
    requires i < |Sums(row, services)|
    ensures i < |Appended(row, services)|
    ensures Appended(row, services)[i] == Field(Sums(row, services)[i].description, Amount(Sums(row, services)[i].total))
  {
    AppendedIsSumFields(row, services);
  }

  lemma SumsAscending(row: Row, services: seq<ServiceEntry>)
    ensures forall i, j :: 0 <= i < j < |Sums(row, services)| ==>
      Less(Sums(row, services)[i].description, Sums(row, services)[j].description)
  {
    GroupSumCorrect(Matched(row, services));
    AscendingAt(Sums(row, services));
  }

  lemma SumsKeys(row: Row, services: seq<ServiceEntry>)
    ensures (set i | 0 <= i < |Sums(row, services)| :: Sums(row, services)[i].description)
         == (set e | e in services && Matches(row, e) :: e.description)
  {
    var sums := Sums(row, services);
    SumsDictionaryKeys(row, services);
    AsMapKeys(sums);
    MatchedDescriptions(row, services);
  }

  /** The dictionary of `sums` has a key for each Description of the `time_frame`. */
  lemma SumsDictionaryKeys(row: Row, services: seq<ServiceEntry>)
    ensures AsMap(Sums(row, services)).Keys == Descriptions(Matched(row, services))
  {
    GroupSumCorrect(Matched(row, services));
  }

  /** The Descriptions of the `time_frame` are those of the matching entries. */
  lemma MatchedDescriptions(row: Row, services: seq<ServiceEntry>)
    ensures Descriptions(Matched(row, services)) == set e | e in services && Matches(row, e) :: e.description
  {
  }

  lemma SumsValues(row: Row, services: seq<ServiceEntry>)
    ensures forall i :: 0 <= i < |Sums(row, services)| ==>
      Sums(row, services)[i].total == WindowTotal(row, services, Sums(row, services)[i].description)
  {
    var m := Matched(row, services);
    var sums := Sums(row, services);
    GroupSumCorrect(m);
    AscendingAt(sums);
    forall i | 0 <= i < |sums| ensures sums[i].total == WindowTotal(row, services, sums[i].description) {
      var d := sums[i].description;
      assert sums[i].total == AsMap(sums)[d] == Totals(m)[d];
      MatchedTotalIsWindowTotal(row, services, d);
    }
  }

  /**
   * Entries of other entities never matter: two service tables holding the
   * same entries for this record's entity, as often each, give the same output.
   */
  lemma OnlyOwnEntriesMatter(row: Row, s1: seq<ServiceEntry>, s2: seq<ServiceEntry>)
    requires forall e: ServiceEntry :: SameEntity(e.entityId, row.entityId) ==> multiset(s1)[e] == multiset(s2)[e]
    ensures PivotServices(row, s1) == PivotServices(row, s2)
  {
    assert multiset(Matched(row, s1)) == multiset(Matched(row, s2));
    GroupSumPermutation(Matched(row, s1), Matched(row, s2));
  }

  /** Reordering the service table does not change any output. */
  lemma PermutationInvariant(row: Row, s1: seq<ServiceEntry>, s2: seq<ServiceEntry>)
    requires multiset(s1) == multiset(s2)
    ensures PivotServices(row, s1) == PivotServices(row, s2)
  {
    OnlyOwnEntriesMatter(row, s1, s2);
  }

  /** An entry that fails a mask can be inserted anywhere in the table without effect. */
  lemma NonMatchingEntryIgnored(row: Row, s1: seq<ServiceEntry>, e: ServiceEntry, s2: seq<ServiceEntry>)
    requires !Matches(row, e)
    ensures PivotServices(row, s1 + [e] + s2) == PivotServices(row, s1 + s2)
  {
    assert multiset(Matched(row, s1 + [e] + s2)) == multiset(Matched(row, s1 + s2));
    GroupSumPermutation(Matched(row, s1 + [e] + s2), Matched(row, s1 + s2));
  }

  /** The window is open at its end: an entry dated exactly ScoreDate is not counted. */
  lemma EntryAtScoreDateIgnored(row: Row, s1: seq<ServiceEntry>, e: ServiceEntry, s2: seq<ServiceEntry>)
    requires e.date == row.scoreDate
    ensures PivotServices(row, s1 + [e] + s2) == PivotServices(row, s1 + s2)
  {
    NonMatchingEntryIgnored(row, s1, e, s2);
  }

  /** An entry whose Date was coerced to NaT never counts. */
  lemma NullDateEntryIgnored(row: Row, s1: seq<ServiceEntry>, e: ServiceEntry, s2: seq<ServiceEntry>)
    requires e.date.None?
    ensures PivotServices(row, s1 + [e] + s2) == PivotServices(row, s1 + s2)
  {
    NonMatchingEntryIgnored(row, s1, e, s2);
  }

  /**
   * The window is closed at its start: an entry of this entity dated exactly
   * LastScoreDate (in a non-empty window) is counted, so its Description is
   * an appended field holding its Total plus the rest of that Description's sum.
   */
  lemma EntryAtLastScoreDateCounted(row: Row, s1: seq<ServiceEntry>, e: ServiceEntry, s2: seq<ServiceEntry>)
    requires SameEntity(e.entityId, row.entityId) && e.date == row.lastScoreDate
    requires row.lastScoreDate.Some? && row.scoreDate.Some? && row.lastScoreDate.value < row.scoreDate.value
    ensures Field(e.description, Amount(WindowTotal(row, s1 + [e] + s2, e.description))) in Appended(row, s1 + [e] + s2)
    ensures WindowTotal(row, s1 + [e] + s2, e.description) == e.total + WindowTotal(row, s1 + s2, e.description)
  {
    var s := s1 + [e] + s2;
    assert e in s by { assert s[|s1|] == e; }
    MatchingEntryField(row, s, e);
    WindowTotalInsert(row, s1, e, s2);
  }

  /** A matching entry's Description appears among the appended fields with its whole window sum. */
  lemma MatchingEntryField(row: Row, services: seq<ServiceEntry>, e: ServiceEntry)
    requires e in services && Matches(row, e)
    ensures Field(e.description, Amount(WindowTotal(row, services, e.description))) in Appended(row, services)
  {
    var i := MatchingEntryHasGroup(row, services, e);
    SumValueAt(row, services, i);
    AppendedAt(row, services, i);
  }

  /** One group of `sums` holds the window sum of its Description. */
  lemma SumValueAt(row: Row, services: seq<ServiceEntry>, i: nat)
    requires i < |Sums(row, services)|
    ensures Sums(row, services)[i].total == WindowTotal(row, services, Sums(row, services)[i].description)
  {
    SumsValues(row, services);
  }

  /** A matching entry inserted anywhere adds its Total to its own Description's window sum. */
  lemma WindowTotalInsert(row: Row, s1: seq<ServiceEntry>, e: ServiceEntry, s2: seq<ServiceEntry>)
    requires Matches(row, e)
    ensures WindowTotal(row, s1 + [e] + s2, e.description) == e.total + WindowTotal(row, s1 + s2, e.description)
  {
    WindowTotalConcat(row, s1 + [e], s2, e.description);
    WindowTotalConcat(row, s1, [e], e.description);
    WindowTotalConcat(row, s1, s2, e.description);
  }

  /** A matching entry's Description has a group in `sums`. */
  lemma MatchingEntryHasGroup(row: Row, services: seq<ServiceEntry>, e: ServiceEntry) returns (i: nat)
    requires e in services && Matches(row, e)
    ensures i < |Sums(row, services)| && Sums(row, services)[i].description == e.description
  {
    var sums := Sums(row, services);
    MatchedDescriptions(row, services);
    SumsDictionaryKeys(row, services);
    assert e.description in (set x | x in services && Matches(row, x) :: x.description);
    assert e.description in AsMap(sums);
    AsMapKeys(sums);
    i :| 0 <= i < |sums| && sums[i].description == e.description;
  }

  /**
   * The record comes back exactly as it was if and only if no service entry
   * matches its entity and window.
   */
  lemma NoMatchIsPassthrough(row: Row, services: seq<ServiceEntry>)
    ensures PivotServices(row, services) == row <==> forall e :: e in services ==> !Matches(row, e)
  {
    var m := Matched(row, services);
    if forall e :: e in services ==> !Matches(row, e) {
      assert multiset(m) == multiset{};
      assert m == [];
      assert SumFields([]) == [];
    } else {
      var e :| e in services && Matches(row, e);
      assert multiset(m)[e] > 0;
      GroupSumCorrect(m);
      assert e in m;
      assert e.description in AsMap(GroupSum(m));
      assert |GroupSum(m)| > 0;
      assert |PivotServices(row, services).fields| > |row.fields|;
    }
  }

  /**
   * Applying to a table of records: each output extends its own record, and
   * equals it exactly when no service entry matches that record.
   */
  lemma ApplyToRecordsPassthrough(rows: seq<Row>, services: seq<ServiceEntry>)
    ensures forall i :: 0 <= i < |rows| ==>
      (ApplyToRecords(rows, services)[i] == rows[i] <==> forall e :: e in services ==> !Matches(rows[i], e))
  {
    forall i | 0 <= i < |rows|
      ensures ApplyToRecords(rows, services)[i] == rows[i] <==> forall e :: e in services ==> !Matches(rows[i], e)
    {
      NoMatchIsPassthrough(rows[i], services);
    }
  }

  /** A record whose EntityID is NaN matches nothing, since NaN equals nothing, and passes through. */
  lemma NullEntityIdIsPassthrough(row: Row, services: seq<ServiceEntry>)
    requires row.entityId.None?
    ensures PivotServices(row, services) == row
  {
    NoMatchIsPassthrough(row, services);
  }

  /** An entry whose EntityID is NaN never counts, whatever the record. */
  lemma NullEntityIdEntryIgnored(row: Row, s1: seq<ServiceEntry>, e: ServiceEntry, s2: seq<ServiceEntry>)
    requires e.entityId.None?
    ensures PivotServices(row, s1 + [e] + s2) == PivotServices(row, s1 + s2)
  {
    NonMatchingEntryIgnored(row, s1, e, s2);
  }

  /** A record whose LastScoreDate or ScoreDate is NaT matches nothing and passes through. */
  lemma NullWindowIsPassthrough(row: Row, services: seq<ServiceEntry>)
    requires row.lastScoreDate.None? || row.scoreDate.None?
    ensures PivotServices(row, services) == row
  {
    NoMatchIsPassthrough(row, services);
  }

  /**
   * A worked case, for any dates: a record of one entity with
   * a window [LastScoreDate, ScoreDate) and three entries of that entity, one
   * dated inside the window, one dated exactly ScoreDate and one dated before
   * LastScoreDate (for instance 2024-01-15, 2024-02-01 and 2023-12-31 for
   * the window [2024-01-01, 2024-02-01)). Only the first is summed, so one
   * field is appended: its Description, holding its Total.
   */
  lemma WorkedExample(row: Row, inside: ServiceEntry, atEnd: ServiceEntry, early: ServiceEntry)
    requires row.lastScoreDate.Some? && row.scoreDate.Some?
    requires inside.entityId == atEnd.entityId == early.entityId == row.entityId && row.entityId.Some?
    requires inside.date.Some? && row.lastScoreDate.value <= inside.date.value < row.scoreDate.value
    requires atEnd.date == row.scoreDate
    requires early.date.Some? && early.date.value < row.lastScoreDate.value
    ensures PivotServices(row, [inside, atEnd, early])
         == row.(fields := row.fields + [Field(inside.description, Amount(inside.total))])
  {
    var one, two, three := [inside], [inside, atEnd], [inside, atEnd, early];
    assert three == two + [early] + [] && two + [] == two;
    assert two == one + [atEnd] + [] && one + [] == one;
    NonMatchingEntryIgnored(row, two, early, []);
    NonMatchingEntryIgnored(row, one, atEnd, []);
    SingleMatch(row, inside);
  }

  /** A table holding one matching entry appends one field: its Description, holding its Total. */
  lemma SingleMatch(row: Row, e: ServiceEntry)
    requires Matches(row, e)
    ensures PivotServices(row, [e]) == row.(fields := row.fields + [Field(e.description, Amount(e.total))])
  {
    MatchedCons(row, [e]);
    assert [e][1..] == [];
    assert Matched(row, [e]) == [e];
    assert GroupSum([e]) == [Group(e.description, e.total)];
    assert SumFields([Group(e.description, e.total)]) == [Field(e.description, Amount(e.total))];
  }
}
