/** The batched refresh of Toluna quota rows (surveys/provider_services.py)
    against one UPDATE per provider quota, in order. */
module QuotaBatch {
  import opened Counting
  import TolunaQuota

  type Pk = nat

  /** `raw` and `layers` stand for the provider's JSON. */
  datatype Payload = Payload(quotaId: int, required: int, estimated: int, raw: string, layers: string)

  datatype Row = Row(survey: nat, quotaId: Option<int>, sampleSize: nat, completes: nat,
                     quota: TolunaQuota.Quota, raw: string, targeting: string)

  datatype Candidate = Candidate(survey: nat, quotas: seq<Payload>)

  /** The values one provider quota gives each of its rows. */
  function Refreshed(row: Row, p: Payload): Row {
    var target, remaining := Positive(p.required), Positive(p.estimated);
    var quota := TolunaQuota.Quota(if remaining > 0 then TolunaQuota.Open else TolunaQuota.Full, remaining);
    row.(sampleSize := target, completes := Positive(target - remaining), quota := quota,
         raw := p.raw, targeting := p.layers)
  }

  predicate Matches(row: Row, survey: nat, p: Payload) {
    p.quotaId >= 0 && row.survey == survey && row.quotaId == Some(p.quotaId)
  }

  // ---- The reference: one UPDATE for each quota, later ones overwriting ----

  function UpdateRow(row: Row, survey: nat, quotas: seq<Payload>): Row {
    if quotas == [] then row
    else
      var p := quotas[|quotas| - 1];
      var earlier := UpdateRow(row, survey, quotas[..|quotas| - 1]);
      if Matches(row, survey, p) then Refreshed(earlier, p) else earlier
  }

  function UpdateRowAll(row: Row, candidates: seq<Candidate>): Row {
    if candidates == [] then row
    else
      var c := candidates[|candidates| - 1];
      UpdateRow(UpdateRowAll(row, candidates[..|candidates| - 1]), c.survey, c.quotas)
  }

  function UpdateTable(table: map<Pk, Row>, candidates: seq<Candidate>): map<Pk, Row> {
    map pk | pk in table :: UpdateRowAll(table[pk], candidates)
  }

  lemma {:induction false} IdentityKept(row: Row, survey: nat, quotas: seq<Payload>)
    ensures UpdateRow(row, survey, quotas).survey == row.survey && UpdateRow(row, survey, quotas).quotaId == row.quotaId
  {
    if quotas != [] {
      IdentityKept(row, survey, quotas[..|quotas| - 1]);
    }
  }

  lemma {:induction false} IdentityKeptAll(row: Row, candidates: seq<Candidate>)
    ensures UpdateRowAll(row, candidates).survey == row.survey && UpdateRowAll(row, candidates).quotaId == row.quotaId
  {
    if candidates != [] {
      var c := candidates[|candidates| - 1];
      IdentityKeptAll(row, candidates[..|candidates| - 1]);
      IdentityKept(UpdateRowAll(row, candidates[..|candidates| - 1]), c.survey, c.quotas);
    }
  }

  /** `i` is the last of `quotas` that matches the row. */
  ghost predicate LastMatch(row: Row, survey: nat, quotas: seq<Payload>, i: nat) {
    i < |quotas| && Matches(row, survey, quotas[i]) &&
    forall j :: i < j < |quotas| ==> !Matches(row, survey, quotas[j])
  }

  lemma {:induction false} RefreshOverwrites(row: Row, survey: nat, quotas: seq<Payload>, p: Payload)
    ensures Refreshed(UpdateRow(row, survey, quotas), p) == Refreshed(row, p)
  {
    if quotas != [] {
      RefreshOverwrites(row, survey, quotas[..|quotas| - 1], p);
    }
  }

  /** A row shows its last matching provider quota and nothing else. */
  lemma {:induction false} LastQuotaWins(row: Row, survey: nat, quotas: seq<Payload>, i: nat)
    ensures (forall p :: p in quotas ==> !Matches(row, survey, p)) ==> UpdateRow(row, survey, quotas) == row
    ensures LastMatch(row, survey, quotas, i) ==> UpdateRow(row, survey, quotas) == Refreshed(row, quotas[i])
  {
    if quotas != [] {
      var earlier, last := quotas[..|quotas| - 1], quotas[|quotas| - 1];
      LastQuotaWins(row, survey, earlier, i);
      RefreshOverwrites(row, survey, earlier, last);
      assert i + 1 < |quotas| && LastMatch(row, survey, quotas, i) ==>
        LastMatch(row, survey, earlier, i) && !Matches(row, survey, last);
    }
  }

  /** A provider quota with this id of this row's survey. */
  predicate Names(row: Row, c: Candidate, p: Payload) {
    c.survey == row.survey && row.quotaId.Some? && row.quotaId.value == p.quotaId && p.quotaId >= 0
  }

  predicate Unnamed(row: Row, c: Candidate) {
    forall p :: p in c.quotas ==> !Names(row, c, p)
  }

  ghost predicate NoneNames(row: Row, candidates: seq<Candidate>) {
    forall c :: c in candidates ==> Unnamed(row, c)
  }

  /** The `q`-th quota of the `c`-th candidate names the row and no later one
      does. */
  ghost predicate LastNames(row: Row, candidates: seq<Candidate>, c: nat, q: nat) {
    c < |candidates| && q < |candidates[c].quotas| && Names(row, candidates[c], candidates[c].quotas[q]) &&
    (forall j :: q < j < |candidates[c].quotas| ==> !Names(row, candidates[c], candidates[c].quotas[j])) &&
    NoneNames(row, candidates[c + 1..])
  }

  /** The provider's numbers in the row, negative ones read as zero: its
      target, what is left of it, and what has been used. */
  ghost predicate CountsOf(row: Row, p: Payload) {
    row.sampleSize == (if p.required < 0 then 0 else p.required) &&
    row.quota.remaining == (if p.estimated < 0 then 0 else p.estimated) &&
    (row.quota.remaining <= row.sampleSize ==> row.completes + row.quota.remaining == row.sampleSize) &&
    (row.sampleSize < row.quota.remaining ==> row.completes == 0) &&
    (if p.estimated > 0 then row.quota.status == TolunaQuota.Open else row.quota.status == TolunaQuota.Full)
  }

  lemma LastNamesShorter(row: Row, candidates: seq<Candidate>, c: nat, q: nat)
    requires LastNames(row, candidates, c, q) && c < |candidates| - 1
    ensures LastNames(row, candidates[..|candidates| - 1], c, q)
    ensures Unnamed(row, candidates[|candidates| - 1])
  {
    var n := |candidates| - 1;
    assert candidates[c + 1..][n - c - 1] == candidates[n];
    assert candidates[..n][c + 1..] == candidates[c + 1..][..n - c - 1];
  }

  lemma {:induction false} UnnamedKept(row: Row, candidates: seq<Candidate>)
    requires NoneNames(row, candidates)
    ensures UpdateRowAll(row, candidates) == row
  {
    if candidates != [] {
      var n := |candidates| - 1;
      assert candidates[n] in candidates && forall c :: c in candidates[..n] ==> c in candidates;
      UnnamedKept(row, candidates[..n]);
      LastQuotaWins(row, candidates[n].survey, candidates[n].quotas, 0);
    }
  }

  /** After a whole sync a row shows the numbers and the JSON of the last
      provider quota that names it, over all candidates; any other row is
      unchanged. */
  lemma {:induction false} RowAfterSync(row: Row, candidates: seq<Candidate>, c: nat, q: nat)
    ensures NoneNames(row, candidates) ==> UpdateRowAll(row, candidates) == row
    ensures LastNames(row, candidates, c, q) ==>
      var after, p := UpdateRowAll(row, candidates), candidates[c].quotas[q];
      after.survey == row.survey && after.quotaId == row.quotaId && CountsOf(after, p) &&
      after.raw == p.raw && after.targeting == p.layers
  {
    if NoneNames(row, candidates) {
      UnnamedKept(row, candidates);
    }
    if LastNames(row, candidates, c, q) {
      var n := |candidates| - 1;
      var earlier := UpdateRowAll(row, candidates[..n]);
      IdentityKeptAll(row, candidates[..n]);
      if c == n {
        LastQuotaWins(earlier, candidates[c].survey, candidates[c].quotas, q);
      } else {
        LastNamesShorter(row, candidates, c, q);
        RowAfterSync(row, candidates[..n], c, q);
        LastQuotaWins(earlier, candidates[n].survey, candidates[n].quotas, 0);
      }
    }
  }

  /** The batch writer keeps what the notification writer keeps. */
  lemma RefreshKeepsConsistent(row: Row, p: Payload)
    ensures TolunaQuota.Consistent(Refreshed(row, p).quota)
    ensures Refreshed(row, p).quota.remaining == 0 <==> p.estimated <= 0
  {
  }

  // ---- The replay after the write ----

  /** What the pass after a sync processes for one quota: the latest applied
      delivery if it was received since the sync began, then the pending ones. */
  function Replayed(latest: Option<TolunaQuota.Notification>, since: TolunaQuota.Instant,
                    pending: seq<TolunaQuota.Notification>): seq<TolunaQuota.Notification>
  {
    (if latest.Some? && latest.value.received >= since then [latest.value] else []) + pending
  }

  ghost predicate IsLatest(latest: Option<TolunaQuota.Notification>, applied: set<TolunaQuota.Notification>) {
    if applied == {} then latest == None else latest.Some? && TolunaQuota.Latest(latest.value, applied)
  }

  predicate Shows(q: TolunaQuota.Quota, n: TolunaQuota.Notification) {
    q.status == if n.isLive then TolunaQuota.Open else TolunaQuota.Full
  }

  /** A sync that wrote the quota, with its replay, leaves the newest delivery
      in force exactly if that was received since the sync began or was still
      pending, or the inventory agrees with it. */
  lemma SyncShowsNewestIff(row: Row, p: Payload, applied: set<TolunaQuota.Notification>,
                           latest: Option<TolunaQuota.Notification>, since: TolunaQuota.Instant,
                           pending: seq<TolunaQuota.Notification>, n: TolunaQuota.Notification)
    requires TolunaQuota.Keyed(applied + SetOf(pending)) && TolunaQuota.Latest(n, applied + SetOf(pending))
    requires IsLatest(latest, applied)
    ensures var written := Refreshed(row, p).quota;
            var replayed := TolunaQuota.ProcessAll(written, applied, Replayed(latest, since, pending));
            Shows(replayed, n) <==> n.received >= since || n in pending || Shows(written, n)
  {
    var ns := Replayed(latest, since, pending);
    assert applied + SetOf(ns) == applied + SetOf(pending);
    assert forall m :: m in ns <==> m in pending || (latest == Some(m) && m.received >= since);
    if n in applied {
      TolunaQuota.OneOrder(n, latest.value, n);
      assert latest == Some(n);
    }
    assert n in SetOf(pending) <==> n in pending;
    TolunaQuota.NewestDecides(Refreshed(row, p).quota, applied, ns, n);
  }

  /** An inventory with capacity left reopens any quota whose only delivery
      closed it before the sync began, and the replay does not close it again. */
  lemma OldClosureIsLost(row: Row, p: Payload, since: TolunaQuota.Instant) returns (n: TolunaQuota.Notification)
    requires p.estimated > 0
    ensures !n.isLive && n.received < since && TolunaQuota.Latest(n, {n}) && IsLatest(Some(n), {n})
    ensures var written := Refreshed(row, p).quota;
            TolunaQuota.ProcessAll(written, {n}, Replayed(Some(n), since, [])) == written && !Shows(written, n) &&
            written == TolunaQuota.Quota(TolunaQuota.Open, p.estimated)
  {
    n := TolunaQuota.Notification(0, Some(since - 1), since - 1, false);
    var none: seq<TolunaQuota.Notification> := [];
    assert Replayed(Some(n), since, none) == none && SetOf(none) == {};
    SyncShowsNewestIff(row, p, {n}, Some(n), since, none, n);
  }

  // ---- The batch ----

  predicate Complete(table: map<Pk, Row>, c: Candidate) {
    forall p :: p in c.quotas && p.quotaId >= 0 ==> exists pk :: pk in table && Matches(table[pk], c.survey, p)
  }

  /** A survey is complete exactly if the table that the sync leaves has a row
      for each of its valid quota ids. */
  lemma CompleteIff(table: map<Pk, Row>, candidates: seq<Candidate>, c: Candidate)
    ensures Complete(table, c) <==>
      forall p :: p in c.quotas && p.quotaId >= 0 ==>
        exists pk :: pk in table && Names(UpdateTable(table, candidates)[pk], c, p)
  {
    var after := UpdateTable(table, candidates);
    forall p, pk | p in c.quotas && pk in table
      ensures p.quotaId >= 0 ==> (Matches(table[pk], c.survey, p) <==> Names(after[pk], c, p))
    {
      IdentityKeptAll(table[pk], candidates);
    }
  }

  /** Rows loaded once: of any candidate survey and any valid quota id. */
  predicate Selected(row: Row, surveys: set<nat>, quotaIds: set<int>) {
    row.survey in surveys && row.quotaId.Some? && row.quotaId.value in quotaIds
  }

  /** The loaded copies agree with the reference; other rows are untouched. */
  ghost predicate Mirrors(table: map<Pk, Row>, memory: map<Pk, Row>, dirty: set<Pk>, candidates: seq<Candidate>) {
    memory.Keys <= table.Keys && dirty <= memory.Keys &&
    (forall pk :: pk in memory ==> memory[pk] == UpdateRowAll(table[pk], candidates)) &&
    (forall pk :: pk in table && pk !in dirty ==> UpdateRowAll(table[pk], candidates) == table[pk])
  }

  ghost predicate MirrorsPart(table: map<Pk, Row>, memory: map<Pk, Row>, dirty: set<Pk>,
                              before: seq<Candidate>, survey: nat, part: seq<Payload>)
  {
    memory.Keys <= table.Keys && dirty <= memory.Keys &&
    (forall pk :: pk in memory ==> memory[pk] == UpdateRow(UpdateRowAll(table[pk], before), survey, part)) &&
    (forall pk :: pk in table && pk !in dirty ==> UpdateRow(UpdateRowAll(table[pk], before), survey, part) == table[pk])
  }

  ghost predicate Loaded(table: map<Pk, Row>, memory: map<Pk, Row>, surveys: set<nat>, quotaIds: set<int>) {
    forall pk :: pk in memory <==> pk in table && Selected(table[pk], surveys, quotaIds)
  }

  /** The single SELECT ... FOR UPDATE. */
  function Load(table: map<Pk, Row>, surveys: set<nat>, quotaIds: set<int>): (memory: map<Pk, Row>)
    ensures Loaded(table, memory, surveys, quotaIds) && Mirrors(table, memory, {}, [])
  {
    map pk | pk in table && Selected(table[pk], surveys, quotaIds) :: table[pk]
  }

  /** The bulk write: every dirty row once, from its copy. */
  function Written(table: map<Pk, Row>, memory: map<Pk, Row>, dirty: set<Pk>): map<Pk, Row>
    requires dirty <= memory.Keys
  {
    table + map pk | pk in dirty :: memory[pk]
  }

  lemma WriteBack(table: map<Pk, Row>, memory: map<Pk, Row>, dirty: set<Pk>, candidates: seq<Candidate>)
    requires Mirrors(table, memory, dirty, candidates)
    ensures Written(table, memory, dirty) == UpdateTable(table, candidates)
  {
  }

  ghost predicate Within(c: Candidate, surveys: set<nat>, quotaIds: set<int>) {
    c.survey in surveys && forall p :: p in c.quotas && p.quotaId >= 0 ==> p.quotaId in quotaIds
  }

  ghost predicate LastOf(candidates: seq<Candidate>, i: nat)
    requires i < |candidates|
  {
    forall j :: i < j < |candidates| ==> candidates[j].survey != candidates[i].survey
  }

  /** The result flag of a survey is that of its last candidate. */
  ghost predicate Reports(results: map<nat, bool>, table: map<Pk, Row>, candidates: seq<Candidate>) {
    (forall s :: s in results <==> exists i :: 0 <= i < |candidates| && candidates[i].survey == s) &&
    forall i :: 0 <= i < |candidates| && LastOf(candidates, i) ==>
      candidates[i].survey in results && results[candidates[i].survey] == Complete(table, candidates[i])
  }

  lemma OneMoreReport(results: map<nat, bool>, table: map<Pk, Row>, before: seq<Candidate>, c: Candidate)
    requires Reports(results, table, before)
    ensures Reports(results[c.survey := Complete(table, c)], table, before + [c])
  {
    var all, results' := before + [c], results[c.survey := Complete(table, c)];
    forall s ensures s in results' <==> exists i :: 0 <= i < |all| && all[i].survey == s {
      if s == c.survey {
        assert all[|before|].survey == s;
      } else if s in results {
        var i :| 0 <= i < |before| && before[i].survey == s;
        assert all[i].survey == s;
      }
    }
    forall i | 0 <= i < |all| && LastOf(all, i)
      ensures all[i].survey in results' && results'[all[i].survey] == Complete(table, all[i])
    {
      if i < |before| {
        assert all[|before|].survey != all[i].survey;
        assert forall j :: i < j < |before| ==> before[j] == all[j];
        assert LastOf(before, i);
      }
    }
  }

  /** Before the first quota the inner loop has nothing to show. */
  lemma NoQuotaYet(table: map<Pk, Row>, memory: map<Pk, Row>, dirty: set<Pk>, before: seq<Candidate>, c: Candidate)
    requires Mirrors(table, memory, dirty, before)
    ensures MirrorsPart(table, memory, dirty, before, c.survey, c.quotas[..0])
    ensures Complete(table, Candidate(c.survey, c.quotas[..0]))
  {
  }

  /** After the last quota the inner loop has covered the candidate. */
  lemma AllQuotas(table: map<Pk, Row>, memory: map<Pk, Row>, dirty: set<Pk>, before: seq<Candidate>, c: Candidate)
    requires MirrorsPart(table, memory, dirty, before, c.survey, c.quotas[..|c.quotas|])
    ensures Mirrors(table, memory, dirty, before + [c])
    ensures Complete(table, Candidate(c.survey, c.quotas[..|c.quotas|])) == Complete(table, c)
  {
    assert c.quotas[..|c.quotas|] == c.quotas && Candidate(c.survey, c.quotas) == c;
    assert (before + [c])[..|before|] == before;
  }

  /** A valid quota matches a stored row exactly when it matches its copy. */
  lemma CopyShowsMatch(row: Row, before: seq<Candidate>, survey: nat, part: seq<Payload>, p: Payload)
    ensures Matches(UpdateRowAll(row, before), survey, p) <==> Matches(row, survey, p)
    ensures Matches(UpdateRow(UpdateRowAll(row, before), survey, part), survey, p) <==> Matches(row, survey, p)
  {
    IdentityKeptAll(row, before);
    IdentityKept(UpdateRowAll(row, before), survey, part);
  }

  /** One quota later, copies and completeness still agree with the reference. */
  lemma OneMoreQuota(table: map<Pk, Row>, memory: map<Pk, Row>, dirty: set<Pk>, before: seq<Candidate>, c: Candidate,
                     j: nat, surveys: set<nat>, quotaIds: set<int>, memory': map<Pk, Row>, dirty': set<Pk>)
    requires j < |c.quotas| && Within(c, surveys, quotaIds)
    requires MirrorsPart(table, memory, dirty, before, c.survey, c.quotas[..j])
    requires Loaded(table, memory, surveys, quotaIds)
    requires memory'.Keys == memory.Keys
    requires forall pk :: pk in memory ==>
      memory'[pk] ==
        if Matches(memory[pk], c.survey, c.quotas[j]) then Refreshed(memory[pk], c.quotas[j]) else memory[pk]
    requires dirty' == dirty + set pk | pk in memory && Matches(memory[pk], c.survey, c.quotas[j])
    ensures MirrorsPart(table, memory', dirty', before, c.survey, c.quotas[..j + 1])
    ensures var p := c.quotas[j];
            Complete(table, Candidate(c.survey, c.quotas[..j + 1])) <==>
              Complete(table, Candidate(c.survey, c.quotas[..j])) &&
              (p.quotaId < 0 || exists pk :: pk in memory && Matches(memory[pk], c.survey, p))
  {
    var p := c.quotas[j];
    var part, more := c.quotas[..j], c.quotas[..j + 1];
    assert more == part + [p] && more[..j] == part;
    forall pk | pk in table
      ensures Matches(table[pk], c.survey, p) <==> pk in memory && Matches(memory[pk], c.survey, p)
      ensures Matches(UpdateRowAll(table[pk], before), c.survey, p) <==> Matches(table[pk], c.survey, p)
    {
      CopyShowsMatch(table[pk], before, c.survey, part, p);
    }
  }

  class QuotaRows {
    var table: map<Pk, Row>

    constructor (table: map<Pk, Row>)
      ensures this.table == table
    {
      this.table := table;
    }

    /** One quota applied to the loaded copies it matches. */
    method ApplyToCopies(memory: map<Pk, Row>, dirty: set<Pk>, survey: nat, p: Payload)
      returns (memory': map<Pk, Row>, dirty': set<Pk>, found: bool)
      ensures memory'.Keys == memory.Keys
      ensures forall pk :: pk in memory ==>
        memory'[pk] == if Matches(memory[pk], survey, p) then Refreshed(memory[pk], p) else memory[pk]
      ensures dirty' == dirty + set pk | pk in memory && Matches(memory[pk], survey, p)
      ensures found <==> exists pk :: pk in memory && Matches(memory[pk], survey, p)
    {
      var matching := set pk | pk in memory && Matches(memory[pk], survey, p);
      var rest := matching;
      memory', dirty' := memory, dirty;
      while rest != {}
        invariant rest <= matching && memory'.Keys == memory.Keys && dirty' == dirty + (matching - rest)
        invariant forall pk :: pk in memory ==>
          memory'[pk] == if pk in matching && pk !in rest then Refreshed(memory[pk], p) else memory[pk]
      {
        var pk :| pk in rest;
        memory' := memory'[pk := Refreshed(memory[pk], p)];
        dirty' := dirty' + {pk};
        rest := rest - {pk};
      }
      found := matching != {};
    }

    /** The inner loop: every valid quota of one candidate, in order. */
    method ApplyCandidate(memory: map<Pk, Row>, dirty: set<Pk>, ghost before: seq<Candidate>, c: Candidate,
                          ghost surveys: set<nat>, ghost quotaIds: set<int>)
      returns (memory': map<Pk, Row>, dirty': set<Pk>, complete: bool)
      requires Mirrors(table, memory, dirty, before)
      requires Loaded(table, memory, surveys, quotaIds) && Within(c, surveys, quotaIds)
      ensures Mirrors(table, memory', dirty', before + [c]) && Loaded(table, memory', surveys, quotaIds)
      ensures complete == Complete(table, c)
    {
      memory', dirty', complete := memory, dirty, true;
      NoQuotaYet(table, memory, dirty, before, c);
      for j := 0 to |c.quotas|
        invariant MirrorsPart(table, memory', dirty', before, c.survey, c.quotas[..j])
        invariant Loaded(table, memory', surveys, quotaIds)
        invariant complete == Complete(table, Candidate(c.survey, c.quotas[..j]))
      {
        var p := c.quotas[j];
        ghost var copies, written := memory', dirty';
        if p.quotaId >= 0 {
          var found;
          memory', dirty', found := ApplyToCopies(memory', dirty', c.survey, p);
          complete := complete && found;
        }
        OneMoreQuota(table, copies, written, before, c, j, surveys, quotaIds, memory', dirty');
      }
      AllQuotas(table, memory', dirty', before, c);
    }

    /** The first loop: which rows to load and lock. */
    method Prepare(candidates: seq<Candidate>) returns (surveys: set<nat>, quotaIds: set<int>)
      ensures forall k :: 0 <= k < |candidates| ==> Within(candidates[k], surveys, quotaIds)
    {
      surveys, quotaIds := {}, {};
      for i := 0 to |candidates|
        invariant forall k :: 0 <= k < i ==> Within(candidates[k], surveys, quotaIds)
      {
        var c := candidates[i];
        surveys := surveys + {c.survey};
        for j := 0 to |c.quotas|
          invariant forall k :: 0 <= k < i ==> Within(candidates[k], surveys, quotaIds)
          invariant c.survey in surveys
          invariant forall k :: 0 <= k < j && c.quotas[k].quotaId >= 0 ==> c.quotas[k].quotaId in quotaIds
        {
          if c.quotas[j].quotaId >= 0 {
            quotaIds := quotaIds + {c.quotas[j].quotaId};
          }
        }
      }
    }

    /** `_sync_toluna_quota_snapshots_bulk`: load once, update the copies,
        write each physical row once. */
    method SyncSnapshots(candidates: seq<Candidate>) returns (results: map<nat, bool>)
      modifies this
      ensures table == UpdateTable(old(table), candidates)
      ensures Reports(results, old(table), candidates)
    {
      var surveys, quotaIds := Prepare(candidates);
      ghost var before := table;
      var memory, dirty: set<Pk> := Load(table, surveys, quotaIds), {};
      results := map[];
      for i := 0 to |candidates|
        invariant table == before
        invariant Mirrors(before, memory, dirty, candidates[..i]) && Loaded(before, memory, surveys, quotaIds)
        invariant Reports(results, before, candidates[..i])
      {
        var c := candidates[i];
        var complete;
        memory, dirty, complete := ApplyCandidate(memory, dirty, candidates[..i], c, surveys, quotaIds);
        OneMoreReport(results, before, candidates[..i], c);
        TakeNext(candidates, i);
        results := results[c.survey := complete];
      }
      TakeAll(candidates);
      WriteBack(before, memory, dirty, candidates);
      table := Written(table, memory, dirty);
    }
  }
}
