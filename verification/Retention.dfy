/** Retention of the audit log by partitions (internal/audit/partition.go): dropping every monthly
    partition that ends at or before the cutoff and deleting what is left before it is the same as
    a plain delete, because partition names parse back to their months and months are disjoint. */
module Retention {
  import opened Base
  import opened Calendar

  /** A row, by its identifier and its created_at. */
  type Row = (nat, int)

  /** A partition holds rows of a range of times, its end excluded. */
  datatype Part = Part(from: int, to: int, rows: set<Row>)

  type Parts = map<string, Part>

  const MAX_MONTHS_AHEAD := 24
  const ZERO_TIME := Start(12)

  function AllRows(parts: Parts): set<Row> {
    set n, r | n in parts && r in parts[n].rows :: r
  }

  predicate PartOk(name: string, p: Part) {
    && (forall r :: r in p.rows ==> p.from <= r.1 < p.to)
    && var m := ParseName(name);
    m.Some? ==> p.from == Start(m.value) && p.to == Start(m.value + 1)
  }

  predicate Apart(p: Part, q: Part) {
    p.to <= q.from || q.to <= p.from
  }

  /** What PostgreSQL keeps, rows in their range and ranges apart, and what the code keeps: a
      partition with a month's name has that month's range. Other partitions may exist. */
  ghost predicate WellFormed(parts: Parts) {
    && (forall n :: n in parts ==> PartOk(n, parts[n]))
    && (forall n, k :: n in parts && k in parts && n != k ==> Apart(parts[n], parts[k]))
  }

  predicate Expired(name: string, cutoff: int) {
    ParseName(name).Some? && Start(ParseName(name).value + 1) <= cutoff
  }

  function KeepFrom(rows: set<Row>, cutoff: int): set<Row> {
    set r | r in rows && r.1 >= cutoff
  }

  /** Two months with different names are apart. */
  lemma MonthsApart(a: Month, b: Month)
    requires a != b
    ensures Start(a + 1) <= Start(b) || Start(b + 1) <= Start(a)
  {
    hide Start;
    if a < b {
      if a + 1 < b { StartGrows(a + 1, b); }
    } else {
      if b + 1 < a { StartGrows(b + 1, a); }
    }
  }

  /** The zero time is the start of year 1. */
  lemma ZeroTime()
    ensures ZERO_TIME == 366 * DAY
  {
    YearStart(1);
  }

  /** What dropping the expired partitions and then deleting leaves. */
  function Dropped(parts: Parts, names: set<string>): Parts {
    parts - names
  }

  function Deleted(parts: Parts, cutoff: int): Parts {
    map n | n in parts :: parts[n].(rows := KeepFrom(parts[n].rows, cutoff))
  }

  function ExpiredNames(parts: Parts, cutoff: int): set<string> {
    set n | n in parts && Expired(n, cutoff)
  }

  /** What PostgreSQL alone keeps: rows in their range, ranges apart. */
  ghost predicate Placed(parts: Parts) {
    && (forall n, r :: n in parts && r in parts[n].rows ==> parts[n].from <= r.1 < parts[n].to)
    && (forall n, k :: n in parts && k in parts && n != k ==> Apart(parts[n], parts[k]))
  }

  /** What the fast form leaves: ApplyRetention's drops and its delete. */
  function FastForm(parts: Parts, cutoff: int): Parts {
    Deleted(Dropped(parts, ExpiredNames(parts, cutoff)), cutoff)
  }

  predicate NameHonest(name: string, p: Part) {
    ParseName(name).Some? ==> forall r :: r in p.rows ==> r.1 < Start(ParseName(name).value + 1)
  }

  /** Every row of a partition with a month's name lies before that month's end. */
  ghost predicate NamesHonest(parts: Parts) {
    forall n :: n in parts ==> NameHonest(n, parts[n])
  }

  lemma HonestRetention(parts: Parts, cutoff: int)
    requires NamesHonest(parts)
    ensures AllRows(FastForm(parts, cutoff)) == KeepFrom(AllRows(parts), cutoff)
  {
    var after := FastForm(parts, cutoff);
    hide ParseName, Start;
    forall r | r in KeepFrom(AllRows(parts), cutoff) ensures r in AllRows(after) {
      var n :| n in parts && r in parts[n].rows;
      assert NameHonest(n, parts[n]);
      assert n in after && r in after[n].rows;
    }
    forall r | r in AllRows(after) ensures r in KeepFrom(AllRows(parts), cutoff) {
      var n :| n in after && r in after[n].rows;
      assert n in parts && r in parts[n].rows;
    }
  }

  /** A row at or after the end of its partition's month is lost by a cutoff at that end. */
  lemma DishonestLoses(parts: Parts, name: string, r: Row)
    requires Placed(parts) && name in parts && r in parts[name].rows
    requires ParseName(name).Some? && Start(ParseName(name).value + 1) <= r.1
    ensures var cutoff := Start(ParseName(name).value + 1);
      AllRows(FastForm(parts, cutoff)) != KeepFrom(AllRows(parts), cutoff)
  {
    var cutoff := Start(ParseName(name).value + 1);
    assert name in ExpiredNames(parts, cutoff);
    hide ParseName, Start, Expired;
    var after := FastForm(parts, cutoff);
    assert r in KeepFrom(AllRows(parts), cutoff);
    forall n | n in after ensures r !in after[n].rows {
      assert n in parts && n != name && Apart(parts[n], parts[name]);
    }
  }

  /** The fast form is a plain delete, at every cutoff, exactly when the names are honest. */
  lemma RetentionExactly(parts: Parts)
    requires Placed(parts)
    ensures (forall cutoff: int :: AllRows(FastForm(parts, cutoff)) == KeepFrom(AllRows(parts), cutoff)) <==> NamesHonest(parts)
  {
    if NamesHonest(parts) {
      forall cutoff: int ensures AllRows(FastForm(parts, cutoff)) == KeepFrom(AllRows(parts), cutoff) { HonestRetention(parts, cutoff); }
    } else {
      var n :| n in parts && !NameHonest(n, parts[n]);
      var r :| r in parts[n].rows && Start(ParseName(n).value + 1) <= r.1;
      DishonestLoses(parts, n, r);
    }
  }

  /** What stays, in the caller's terms: with honest names exactly the rows from the cutoff on; and of
      the partitions all but those whose name is that of a month over by then. */
  lemma RetentionLeaves(parts: Parts, cutoff: int, row: Row, m: Month)
    requires Placed(parts) && m < END_OF_NAMES
    ensures NamesHonest(parts) ==> (row in AllRows(FastForm(parts, cutoff)) <==> row in AllRows(parts) && cutoff <= row.1)
    ensures Name(m) in FastForm(parts, cutoff) <==> Name(m) in parts && cutoff < Start(m + 1)
    ensures forall n :: n in parts && ParseName(n).None? ==> n in FastForm(parts, cutoff)
  {
    NameRoundTrip(m);
    if NamesHonest(parts) { HonestRetention(parts, cutoff); }
    hide Start, Name, ParseName, NamesHonest;
  }

  lemma WellFormedHonest(parts: Parts)
    requires WellFormed(parts)
    ensures Placed(parts) && NamesHonest(parts)
  {
    hide ParseName, Start;
    forall n | n in parts ensures NameHonest(n, parts[n]) && forall r :: r in parts[n].rows ==> parts[n].from <= r.1 < parts[n].to {
      assert PartOk(n, parts[n]);
    }
  }

  /** On the partitions that the code creates the fast form removes exactly the rows before the
      cutoff, and leaves such partitions. */
  lemma RetentionIsPlainDelete(parts: Parts, cutoff: int)
    requires WellFormed(parts)
    ensures AllRows(FastForm(parts, cutoff)) == KeepFrom(AllRows(parts), cutoff)
    ensures WellFormed(FastForm(parts, cutoff))
  {
    WellFormedHonest(parts);
    HonestRetention(parts, cutoff);
    var after := FastForm(parts, cutoff);
    hide ParseName, Start;
    forall n | n in after ensures PartOk(n, after[n]) { assert PartOk(n, parts[n]); }
  }

  /** A misnamed partition breaks it: January of year 0 by name, February by range. */
  lemma NamesMatter(row: Row)
    requires row.1 == Start(1)
    ensures var parts: Parts := map[Name(0) := Part(Start(1), Start(2), {row})];
      Placed(parts) && AllRows(FastForm(parts, Start(1))) != KeepFrom(AllRows(parts), Start(1))
  {
    NameRoundTrip(0);
    StartGrows(1, 2);
    hide Start, Name, ParseName, FastForm, AllRows;
    OnePart(Name(0), Start(1), Start(2), row);
    DishonestLoses(map[Name(0) := Part(Start(1), Start(2), {row})], Name(0), row);
  }

  lemma OnePart(name: string, from: int, to: int, row: Row)
    requires from <= row.1 < to
    ensures Placed(map[name := Part(from, to, {row})])
  {}

  /** A range that no partition overlaps. */
  predicate Room(parts: Parts, from: int, to: int) {
    forall n :: n in parts ==> parts[n].to <= from || to <= parts[n].from
  }

  /** The month can take rows: its own partition is there. */
  predicate Covered(parts: Parts, m: Month)
    requires m < END_OF_NAMES
  {
    Name(m) in parts && parts[Name(m)].from == Start(m) && parts[Name(m)].to == Start(m + 1)
  }

  /** An empty partition of a month, where there is room, keeps what PostgreSQL keeps, and honest
      names, and, if the others have their months' ranges, that. */
  lemma AddPartKeeps(parts: Parts, m: Month)
    requires Placed(parts) && m < END_OF_NAMES && Name(m) !in parts && Room(parts, Start(m), Start(m + 1))
    ensures var more := parts[Name(m) := Part(Start(m), Start(m + 1), {})];
      && Placed(more) && (NamesHonest(parts) ==> NamesHonest(more)) && (WellFormed(parts) ==> WellFormed(more))
  {
    NameRoundTrip(m);
    hide Start, Name, ParseName;
    var p := Part(Start(m), Start(m + 1), {});
    assert PartOk(Name(m), p) && NameHonest(Name(m), p);
  }

  lemma AddPartRows(parts: Parts, name: string, p: Part)
    requires name !in parts && p.rows == {}
    ensures AllRows(parts[name := p]) == AllRows(parts)
  {
    var more := parts[name := p];
    forall r | r in AllRows(parts) ensures r in AllRows(more) {
      var n :| n in parts && r in parts[n].rows;
      assert n in more && r in more[n].rows;
    }
    forall r | r in AllRows(more) ensures r in AllRows(parts) {
      var n :| n in more && r in more[n].rows;
      assert n in parts && r in parts[n].rows;
    }
  }

  /** All partitions have a month's name. */
  predicate AllMonthly(parts: Parts) {
    forall n :: n in parts ==> ParseName(n).Some?
  }

  /** Among such partitions there is always room for a missing month. */
  lemma MonthlyLeaveRoom(parts: Parts, m: Month)
    requires WellFormed(parts) && m < END_OF_NAMES && Name(m) !in parts && AllMonthly(parts)
    ensures Room(parts, Start(m), Start(m + 1))
  {
    forall n | n in parts ensures parts[n].to <= Start(m) || Start(m + 1) <= parts[n].from {
      var k := ParseName(n).value;
      ParseExactly(n, k);
      assert PartOk(n, parts[n]);
      MonthsApart(k, m);
    }
  }

  lemma NamedCovers(parts: Parts, m: Month)
    requires WellFormed(parts) && m < END_OF_NAMES && Name(m) in parts
    ensures Covered(parts, m)
  {
    NameRoundTrip(m);
    hide Name, ParseName, Start;
    assert PartOk(Name(m), parts[Name(m)]);
  }

  /** Everything a step of EnsureMonthlyPartitions may do to what is there. */
  predicate Extends(before: Parts, after: Parts) {
    && (forall n :: n in before ==> n in after && after[n] == before[n])
    && AllRows(after) == AllRows(before) && (AllMonthly(before) ==> AllMonthly(after))
  }

  /** Consecutive months that are there leave no time between them without a partition. */
  lemma NoGap(parts: Parts, first: Month, last: Month, t: int)
    requires first <= last < END_OF_NAMES && Start(first) <= t < Start(last + 1)
    requires forall m :: first <= m <= last ==> Covered(parts, m)
    ensures exists n :: n in parts && parts[n].from <= t < parts[n].to
  {
    hide Start, Name;
    var m := MonthFrom(first, t);
    if m < first {
      if m + 1 < first { StartGrows(m + 1, first); }
    } else if last < m {
      if last + 1 < m { StartGrows(last + 1, m); }
    }
    assert Covered(parts, m);
  }

  lemma ExtendsSelf(parts: Parts)
    ensures Extends(parts, parts)
  {}

  /** A missing month that has room can be added. */
  lemma AddMonth(parts: Parts, m: Month)
    requires Placed(parts) && m < END_OF_NAMES && Name(m) !in parts && Room(parts, Start(m), Start(m + 1))
    ensures var more := parts[Name(m) := Part(Start(m), Start(m + 1), {})];
      Keeps(parts, more) && Extends(parts, more) && (WellFormed(parts) ==> Covered(more, m))
  {
    NameRoundTrip(m);
    AddPartKeeps(parts, m);
    AddPartRows(parts, Name(m), Part(Start(m), Start(m + 1), {}));
    hide Start, Name, ParseName, AllRows, WellFormed, Placed, NamesHonest, Room;
  }

  /** What every operation keeps. */
  ghost predicate Keeps(before: Parts, after: Parts) {
    Placed(after) && (NamesHonest(before) ==> NamesHonest(after)) && (WellFormed(before) ==> WellFormed(after))
  }

  lemma FastFormKeeps(parts: Parts, cutoff: int)
    requires Placed(parts)
    ensures Keeps(parts, FastForm(parts, cutoff))
  {
    var after := FastForm(parts, cutoff);
    hide ParseName, Start, Expired;
    if NamesHonest(parts) {
      forall n | n in after ensures NameHonest(n, after[n]) { assert NameHonest(n, parts[n]); }
    }
    if WellFormed(parts) {
      forall n | n in after ensures PartOk(n, after[n]) { assert PartOk(n, parts[n]); }
    }
  }

  function Before(rows: set<Row>, cutoff: int): set<Row> {
    set r | r in rows && r.1 < cutoff
  }

  datatype Outcome = Outcome(deletedRows: nat, droppedPartitions: nat)

  class Store {
    var parts: Parts

    constructor ()
      ensures parts == map[] && WellFormed(parts)
    {
      parts := map[];
    }

    /** Creates the partition of a month that is missing, unless another one overlaps it. A table
        with the month's name is taken for its partition, whatever its range. */
    method EnsureAuditPartition(m: Month) returns (ok: bool)
      requires Placed(parts) && m < END_OF_NAMES
      modifies this
      ensures Keeps(old(parts), parts) && Extends(old(parts), parts)
      ensures ok <==> Name(m) in old(parts) || Room(old(parts), Start(m), Start(m + 1))
      ensures ok <==> Name(m) in parts
      ensures ok && WellFormed(old(parts)) ==> Covered(parts, m)
      ensures WellFormed(old(parts)) && AllMonthly(old(parts)) ==> ok
    {
      hide Start, Name, ParseName, WellFormed, Placed, NamesHonest, Covered, Extends, AllMonthly;
      if Name(m) in parts {
        if WellFormed(parts) { NamedCovers(parts, m); }
        ExtendsSelf(parts);
        return true;
      }
      var from, to := Start(m), Start(m + 1);
      if WellFormed(parts) && AllMonthly(parts) { MonthlyLeaveRoom(parts, m); }
      var room := forall n | n in parts :: parts[n].to <= from || to <= parts[n].from;
      if !room {
        ExtendsSelf(parts);
        return false;
      }
      AddMonth(parts, m);
      parts := parts[Name(m) := Part(from, to, {})];
      return true;
    }

    /** Creates the previous, the current and the coming months. An overlap undoes everything. When
        every partition is a month's with that month's range, it succeeds, and then every time from
        the start of the previous month to the end of the horizon has a partition. */
    method EnsureMonthlyPartitions(now: nat, monthsAhead: int) returns (ok: bool)
      requires Placed(parts) && 1 <= MonthOf(now) && MonthOf(now) + MAX_MONTHS_AHEAD < END_OF_NAMES
      modifies this
      ensures Keeps(old(parts), parts) && Extends(old(parts), parts)
      ensures !ok ==> parts == old(parts)
      ensures ok ==> 1 <= monthsAhead <= 24
      ensures ok ==> forall m :: MonthOf(now) - 1 <= m <= MonthOf(now) + monthsAhead ==> Name(m) in parts
      ensures ok && WellFormed(old(parts)) ==> forall m :: MonthOf(now) - 1 <= m <= MonthOf(now) + monthsAhead ==> Covered(parts, m)
      ensures 1 <= monthsAhead <= 24 && WellFormed(old(parts)) && AllMonthly(old(parts)) ==> ok
    {
      hide Start, Name, ParseName, WellFormed, Placed, NamesHonest, MonthOf, AllRows, Room, AllMonthly;
      if monthsAhead < 1 || monthsAhead > MAX_MONTHS_AHEAD { return false; }
      var was, first := parts, MonthOf(now) - 1;
      var offset := 0;
      while offset <= monthsAhead + 1
        invariant 0 <= offset <= monthsAhead + 2
        invariant Keeps(was, parts) && Extends(was, parts)
        invariant forall m :: first <= m < first + offset ==> Name(m) in parts
        invariant WellFormed(was) ==> forall m :: first <= m < first + offset ==> Covered(parts, m)
      {
        ghost var prior := parts;
        var done := EnsureAuditPartition(first + offset);
        if !done {
          parts := was;
          return false;
        }
        if WellFormed(was) {
          forall m | first <= m < first + offset ensures Covered(parts, m) { assert Covered(prior, m); }
        }
        offset := offset + 1;
      }
      return true;
    }

    /** The loop over the partitions of the catalog. */
    method DropExpired(cutoff: int) returns (dropped: nat)
      modifies this
      ensures parts == Dropped(old(parts), ExpiredNames(old(parts), cutoff)) && dropped == |ExpiredNames(old(parts), cutoff)|
    {
      hide Start, ParseName;
      var left := parts.Keys;
      dropped := 0;
      ghost var gone: set<string> := {};
      while left != {}
        invariant left <= old(parts.Keys) && gone <= ExpiredNames(old(parts), cutoff) && dropped == |gone|
        invariant gone !! left && parts == Dropped(old(parts), gone)
        invariant ExpiredNames(old(parts), cutoff) <= gone + left
        decreases left
      {
        var name :| name in left;
        left := left - {name};
        var month := ParseName(name);
        if month.Some? && Start(month.value + 1) <= cutoff {
          assert name in ExpiredNames(old(parts), cutoff);
          parts := parts - {name};
          gone, dropped := gone + {name}, dropped + 1;
        }
      }
      assert gone == ExpiredNames(old(parts), cutoff);
    }

    /** ApplyRetention. It leaves the fast form, which is the plain delete when the names are honest. */
    method ApplyRetention(cutoff: int) returns (r: Result<Outcome, ()>)
      requires Placed(parts)
      modifies this
      ensures Keeps(old(parts), parts)
      ensures r.Ok? <==> cutoff != 366 * DAY
      ensures r.Err? ==> parts == old(parts)
      ensures r.Ok? ==> parts == FastForm(old(parts), cutoff)
      ensures r.Ok? && NamesHonest(old(parts)) ==> AllRows(parts) == KeepFrom(AllRows(old(parts)), cutoff)
      ensures r.Ok? ==> r.value.droppedPartitions == |ExpiredNames(old(parts), cutoff)|
      ensures r.Ok? ==> r.value.deletedRows == |Before(AllRows(Dropped(old(parts), ExpiredNames(old(parts), cutoff))), cutoff)|
    {
      hide Start, ParseName, WellFormed, Placed, NamesHonest, ExpiredNames;
      ZeroTime();
      if cutoff == ZERO_TIME { return Err(()); }
      FastFormKeeps(parts, cutoff);
      if NamesHonest(parts) { HonestRetention(parts, cutoff); }
      var dropped := DropExpired(cutoff);
      var deleted := |Before(AllRows(parts), cutoff)|;
      parts := Deleted(parts, cutoff);
      return Ok(Outcome(deleted, dropped));
    }
  }
}
