/** Respondent notifications from Toluna (surveys/toluna_notifications.py):
    duplicates, retries and late deliveries against the attempt they name. */
module TolunaInbox {
  import opened Counting

  type Instant = int
  type AttemptId = nat
  type Pk = nat

  const COMPLETED := "1"
  const TERMINATED := "2"
  const OVER_QUOTA := "3"
  const QUALITY_TERMINATED := "4"

  datatype EventType = MemberComplete | MemberTerminate | EnhancedTermination | Reconciliation

  /** What is hashed: for completions survey, wave and member code, otherwise
      the whole payload; `integration` is absent while the survey is unknown. */
  datatype Key = Key(event: EventType, identity: string, integration: Option<nat>)

  /** `reason` is lower-cased without spaces, `rejection` lower-cased. */
  datatype Payload = Payload(reason: string, rejection: string, occurred: Option<Instant>)

  datatype Row = Row(key: Key, payload: Payload, attempt: Option<AttemptId>, applied: bool, duplicates: nat)

  datatype Attempt = Attempt(status: string, callbackAt: Option<Instant>, callbackCount: nat)

  // ---- Target status ----

  predicate TokenAt(s: string, token: string, i: nat) {
    i + |token| <= |s| && s[i..i + |token|] == token
  }

  predicate Contains(s: string, token: string) {
    exists i :: 0 <= i <= |s| && TokenAt(s, token, i)
  }

  predicate SecurityRejection(rejection: string) {
    Contains(rejection, "fraud") || Contains(rejection, "quality") ||
    Contains(rejection, "security") || Contains(rejection, "threat")
  }

  /** TERMINATION_STATUS_MAP */
  function TerminationStatus(reason: string): string {
    match reason
    case "quotafull" => OVER_QUOTA
    case "surveytaken" => "12"
    case "surveynotavailable" => "7"
    case "nosurveysavailable" => "8"
    case "nocookie" => "9"
    case "maxsurveysreached" => "10"
    case "notqualified" => "11"
    case _ => TERMINATED
  }

  function TargetStatus(event: EventType, payload: Payload): string {
    match event
    case MemberComplete => COMPLETED
    case Reconciliation => QUALITY_TERMINATED
    case _ => if SecurityRejection(payload.rejection) then QUALITY_TERMINATED else TerminationStatus(payload.reason)
  }

  // ---- The transactions ----

  datatype Inbox = Inbox(rows: map<Pk, Row>, attempts: map<AttemptId, Attempt>)

  predicate Late(event: EventType, a: Attempt) {
    a.status == COMPLETED && event != MemberComplete && event != Reconciliation
  }

  function Updated(a: Attempt, row: Row, now: Instant): Attempt {
    var ended := if row.payload.occurred.Some? then row.payload.occurred.value else now;
    Attempt(TargetStatus(row.key.event, row.payload),
            if a.callbackAt.Some? then a.callbackAt else Some(ended),
            a.callbackCount + 1)
  }

  /** `_reconcile_notification` under the row lock: relink, then apply unless
      it was applied before, has no attempt, or is late. */
  function Reconcile(box: Inbox, pk: Pk, resolved: Option<AttemptId>, now: Instant): Inbox
    requires pk in box.rows
  {
    var row := box.rows[pk];
    if row.applied then box
    else
      var linked := if resolved.Some? then resolved else row.attempt;
      if linked.None? || linked.value !in box.attempts || Late(row.key.event, box.attempts[linked.value])
      then box.(rows := box.rows[pk := row.(attempt := linked)])
      else
        box.(rows := box.rows[pk := row.(attempt := linked, applied := true)],
             attempts := box.attempts[linked.value := Updated(box.attempts[linked.value], row, now)])
  }

  // ---- When a retry applies a row, and what it then writes ----

  /** The attempt a retry would change: the one just resolved, or else the one
      that was linked before. */
  function Linked(row: Row, resolved: Option<AttemptId>): Option<AttemptId> {
    if resolved.Some? then resolved else row.attempt
  }

  ghost predicate TurnsApplied(box: Inbox, box': Inbox, pk: Pk) {
    pk in box.rows && pk in box'.rows && !box.rows[pk].applied && box'.rows[pk].applied
  }

  /** A retry applies a row exactly if it was not applied, has or resolves to a
      known attempt, and is no termination of a completed one.  Otherwise no
      attempt changes, and the row only gets its link. */
  lemma RetryAppliesIff(box: Inbox, pk: Pk, resolved: Option<AttemptId>, now: Instant)
    requires pk in box.rows
    ensures var row, a, box' := box.rows[pk], Linked(box.rows[pk], resolved), Reconcile(box, pk, resolved, now);
            (TurnsApplied(box, box', pk) <==>
               !row.applied && a.Some? && a.value in box.attempts &&
               (box.attempts[a.value].status != "1" || row.key.event == MemberComplete ||
                row.key.event == Reconciliation)) &&
            (!TurnsApplied(box, box', pk) ==> box'.attempts == box.attempts) &&
            (row.applied ==> box' == box) &&
            (!row.applied ==>
               box'.rows == box.rows[pk := row.(attempt := a, applied := TurnsApplied(box, box', pk))])
  {
  }

  /** TERMINATION_STATUS_MAP, as a table. */
  const STATUS_OF_REASON: map<string, string> :=
    map["quotafull" := "3", "surveytaken" := "12", "terminated" := "2", "surveynotavailable" := "7",
        "nosurveysavailable" := "8", "nocookie" := "9", "maxsurveysreached" := "10", "notqualified" := "11"]

  lemma TableGivesStatus(reason: string)
    ensures TerminationStatus(reason) == if reason in STATUS_OF_REASON then STATUS_OF_REASON[reason] else "2"
  {
  }

  lemma ContainsIff(s: string, token: string)
    ensures Contains(s, token) <==> exists before, after :: s == before + token + after
  {
    if Contains(s, token) {
      var i :| 0 <= i <= |s| && TokenAt(s, token, i);
      assert s == s[..i] + token + s[i + |token|..];
    }
    forall before: string, after: string | s == before + token + after ensures Contains(s, token) {
      assert TokenAt(s, token, |before|);
    }
  }

  /** A rejection with one of the four words in it. */
  ghost predicate NamesSecurity(rejection: string) {
    exists before: string, word: string, after: string ::
      rejection == before + word + after && word in ["fraud", "quality", "security", "threat"]
  }

  lemma SecurityIff(rejection: string)
    ensures SecurityRejection(rejection) <==> NamesSecurity(rejection)
  {
    ContainsIff(rejection, "fraud");
    ContainsIff(rejection, "quality");
    ContainsIff(rejection, "security");
    ContainsIff(rejection, "threat");
  }

  /** The change that an applied row makes to its attempt, and to no other. */
  lemma AppliedWrites(box: Inbox, pk: Pk, resolved: Option<AttemptId>, now: Instant)
    requires pk in box.rows && TurnsApplied(box, Reconcile(box, pk, resolved, now), pk)
    ensures var row, box' := box.rows[pk], Reconcile(box, pk, resolved, now);
            var a := Linked(row, resolved).value;
            a in box.attempts && a in box'.attempts &&
            box'.attempts == box.attempts[a := box'.attempts[a]] &&
            box'.attempts[a].callbackCount == box.attempts[a].callbackCount + 1 &&
            (box.attempts[a].callbackAt.Some? ==> box'.attempts[a].callbackAt == box.attempts[a].callbackAt) &&
            (box.attempts[a].callbackAt.None? ==>
               box'.attempts[a].callbackAt ==
                 if row.payload.occurred.Some? then row.payload.occurred else Some(now))
    ensures var row, box' := box.rows[pk], Reconcile(box, pk, resolved, now);
            var status, reason := box'.attempts[Linked(row, resolved).value].status, row.payload.reason;
            match row.key.event
            case MemberComplete => status == "1"
            case Reconciliation => status == "4"
            case _ =>
              status == if NamesSecurity(row.payload.rejection) then "4"
                        else if reason in STATUS_OF_REASON then STATUS_OF_REASON[reason] else "2"
  {
    SecurityIff(box.rows[pk].payload.rejection);
    TableGivesStatus(box.rows[pk].payload.reason);
  }

  /** Lookup order of `ingest_toluna_notification`: the qualified hash first,
      then the one a delivery before the inventory would have stored. */
  ghost predicate Names(box: Inbox, pk: Pk, key: Key) {
    pk in box.rows &&
    (box.rows[pk].key == key ||
    (box.rows[pk].key == key.(integration := None) && !exists q :: q in box.rows && box.rows[q].key == key))
  }

  ghost predicate UniqueKeys(box: Inbox) {
    forall p, q :: p in box.rows && q in box.rows && box.rows[p].key == box.rows[q].key ==> p == q
  }

  ghost function KeySet(box: Inbox): set<Key> {
    set pk | pk in box.rows :: box.rows[pk].key
  }

  /** A delivery adds its key unless a row is found under it, or under the
      one it would have had before its integration was known. */
  function StoreKey(keys: set<Key>, key: Key): set<Key> {
    if key in keys || key.(integration := None) in keys then keys else keys + {key}
  }

  lemma NamesIffStored(box: Inbox, key: Key)
    ensures (exists pk :: Names(box, pk, key)) <==> key in KeySet(box) || key.(integration := None) in KeySet(box)
  {
    if key in KeySet(box) {
      var pk :| pk in box.rows && box.rows[pk].key == key;
      assert Names(box, pk, key);
    } else if key.(integration := None) in KeySet(box) {
      var pk :| pk in box.rows && box.rows[pk].key == key.(integration := None);
      assert Names(box, pk, key);
    }
  }

  lemma ReconcileKeepsKeys(box: Inbox, pk: Pk, resolved: Option<AttemptId>, now: Instant)
    requires pk in box.rows
    ensures KeySet(Reconcile(box, pk, resolved, now)) == KeySet(box)
    ensures UniqueKeys(box) ==> UniqueKeys(Reconcile(box, pk, resolved, now))
  {
    var box' := Reconcile(box, pk, resolved, now);
    assert forall q :: q in box.rows ==> q in box'.rows && box'.rows[q].key == box.rows[q].key;
  }

  /** One more duplicate of a stored delivery. */
  function CountedDuplicate(box: Inbox, pk: Pk): Inbox
    requires pk in box.rows
  {
    box.(rows := box.rows[pk := box.rows[pk].(duplicates := box.rows[pk].duplicates + 1)])
  }

  /** A row for a new delivery. */
  function Added(box: Inbox, pk: Pk, key: Key, payload: Payload, attempt: Option<AttemptId>): Inbox {
    box.(rows := box.rows[pk := Row(key, payload, attempt, false, 0)])
  }

  lemma DuplicateKeepsKeys(box: Inbox, pk: Pk, key: Key)
    requires UniqueKeys(box) && Names(box, pk, key)
    ensures UniqueKeys(CountedDuplicate(box, pk)) && KeySet(CountedDuplicate(box, pk)) == StoreKey(KeySet(box), key)
  {
    var box' := CountedDuplicate(box, pk);
    assert forall q :: q in box.rows ==> q in box'.rows && box'.rows[q].key == box.rows[q].key;
    assert KeySet(box') == KeySet(box);
    NamesIffStored(box, key);
  }

  lemma AddedKey(box: Inbox, pk: Pk, key: Key, payload: Payload, attempt: Option<AttemptId>)
    requires UniqueKeys(box) && pk !in box.rows && forall q :: !Names(box, q, key)
    ensures UniqueKeys(Added(box, pk, key, payload, attempt))
    ensures KeySet(Added(box, pk, key, payload, attempt)) == StoreKey(KeySet(box), key)
  {
    NamesIffStored(box, key);
    var box' := Added(box, pk, key, payload, attempt);
    assert forall q :: q in box.rows ==> box'.rows[q] == box.rows[q];
    assert box'.rows[pk].key == key;
    forall q | q in box.rows ensures box.rows[q].key != key {
      assert box.rows[q].key == key ==> Names(box, q, key);
    }
    assert KeySet(box') == KeySet(box) + {key};
  }

  class NotificationInbox {
    var rows: map<Pk, Row>
    var attempts: map<AttemptId, Attempt>

    constructor (attempts: map<AttemptId, Attempt>)
      ensures Tables() == Inbox(map[], attempts)
    {
      rows, this.attempts := map[], attempts;
    }

    ghost function Tables(): Inbox
      reads this
    {
      Inbox(rows, attempts)
    }

    method ReconcileNotification(pk: Pk, resolved: Option<AttemptId>, now: Instant)
      requires pk in rows
      modifies this
      ensures Tables() == Reconcile(old(Tables()), pk, resolved, now)
    {
      var locked := rows[pk];
      if locked.applied {
        return;
      }
      if resolved.Some? {
        locked := locked.(attempt := resolved);
      }
      if locked.attempt.Some? && locked.attempt.value in attempts {
        var a := locked.attempt.value;
        var attempt := attempts[a];
        if !Late(locked.key.event, attempt) {
          var ended := if locked.payload.occurred.Some? then locked.payload.occurred.value else now;
          attempt := attempt.(status := TargetStatus(locked.key.event, locked.payload));
          if attempt.callbackAt.None? {
            attempt := attempt.(callbackAt := Some(ended));
          }
          attempt := attempt.(callbackCount := attempt.callbackCount + 1);
          attempts := attempts[a := attempt];
          locked := locked.(applied := true);
        }
      }
      rows := rows[pk := locked];
    }

    method FindByKey(key: Key) returns (found: Option<Pk>)
      ensures found.Some? ==> found.value in rows && rows[found.value].key == key
      ensures found.None? ==> forall pk :: pk in rows ==> rows[pk].key != key
    {
      var rest := rows.Keys;
      while rest != {}
        invariant rest <= rows.Keys && forall pk :: pk in rows && pk !in rest ==> rows[pk].key != key
      {
        var pk :| pk in rest;
        if rows[pk].key == key {
          return Some(pk);
        }
        rest := rest - {pk};
      }
      return None;
    }

    method Lookup(key: Key) returns (found: Option<Pk>)
      ensures found.Some? ==> Names(Tables(), found.value, key)
      ensures found.None? ==> forall pk :: !Names(Tables(), pk, key)
    {
      found := FindByKey(key);
      if found.None? && key.integration.Some? {
        found := FindByKey(key.(integration := None));
      }
    }

    /** Lookup, then the duplicate counter or `get_or_create`. */
    method StoreDelivery(key: Key, payload: Payload, resolved: Option<AttemptId>, nextPk: Pk)
      returns (pk: Pk, duplicate: bool)
      requires nextPk !in rows && UniqueKeys(Tables())
      modifies this
      ensures duplicate ==> Names(old(Tables()), pk, key) && Tables() == CountedDuplicate(old(Tables()), pk)
      ensures !duplicate ==>
        pk == nextPk && (forall p :: !Names(old(Tables()), p, key)) &&
        Tables() == Added(old(Tables()), nextPk, key, payload, resolved)
      ensures UniqueKeys(Tables()) && KeySet(Tables()) == StoreKey(KeySet(old(Tables())), key)
    {
      var found := Lookup(key);
      duplicate := found.Some?;
      if duplicate {
        pk := found.value;
        DuplicateKeepsKeys(Tables(), pk, key);
        rows := rows[pk := rows[pk].(duplicates := rows[pk].duplicates + 1)];
      } else {
        pk := nextPk;
        AddedKey(Tables(), pk, key, payload, resolved);
        rows := rows[nextPk := Row(key, payload, resolved, false, 0)];
      }
    }

    /** `ingest_toluna_notification`: a known delivery counts as a duplicate
        and retries its row, an unknown one adds exactly one row. */
    method Ingest(key: Key, payload: Payload, resolved: Option<AttemptId>, nextPk: Pk, now: Instant)
      returns (pk: Pk, duplicate: bool)
      requires nextPk !in rows && UniqueKeys(Tables())
      modifies this
      ensures UniqueKeys(Tables()) && KeySet(Tables()) == StoreKey(KeySet(old(Tables())), key)
      ensures duplicate ==>
        Names(old(Tables()), pk, key) &&
        Tables() == Reconcile(CountedDuplicate(old(Tables()), pk), pk, resolved, now)
      ensures !duplicate ==>
        pk == nextPk && (forall p :: !Names(old(Tables()), p, key)) &&
        Tables() == Reconcile(Added(old(Tables()), nextPk, key, payload, resolved), nextPk, resolved, now)
      ensures duplicate ==>
        pk in old(rows) && pk in rows && rows[pk].key == old(rows)[pk].key &&
        rows[pk].payload == old(rows)[pk].payload && rows[pk].duplicates == old(rows)[pk].duplicates + 1 &&
        (old(rows)[pk].applied ==> rows[pk].applied && attempts == old(attempts))
      ensures !duplicate ==>
        pk in rows && rows[pk].key == key && rows[pk].payload == payload && rows[pk].duplicates == 0 &&
        rows[pk].attempt == resolved &&
        (rows[pk].applied <==>
           resolved.Some? && resolved.value in old(attempts) &&
           (old(attempts)[resolved.value].status != "1" || key.event in {MemberComplete, Reconciliation}))
    {
      pk, duplicate := StoreDelivery(key, payload, resolved, nextPk);
      ReconcileKeepsKeys(Tables(), pk, resolved, now);
      RetryAppliesIff(Tables(), pk, resolved, now);
      ReconcileNotification(pk, resolved, now);
    }
  }

  // ---- Any interleaving of deliveries ----

  /** Two workers with the same payload meet only at the row: creation, the
      duplicate counter and reconciliation are three separate transactions. */
  datatype Op =
    | Insert(pk: Pk, key: Key, payload: Payload, attempt: Option<AttemptId>)
    | CountDuplicate(pk: Pk)
    | Retry(pk: Pk, resolved: Option<AttemptId>, now: Instant)

  ghost predicate Possible(box: Inbox, op: Op) {
    match op
    case Insert(pk, key, _, _) => pk !in box.rows && forall q :: q in box.rows ==> box.rows[q].key != key
    case CountDuplicate(pk) => pk in box.rows
    case Retry(pk, _, _) => pk in box.rows
  }

  ghost function Do(box: Inbox, op: Op): Inbox
    requires Possible(box, op)
  {
    match op
    case Insert(pk, key, payload, attempt) => Added(box, pk, key, payload, attempt)
    case CountDuplicate(pk) => CountedDuplicate(box, pk)
    case Retry(pk, resolved, now) => Reconcile(box, pk, resolved, now)
  }

  ghost predicate OpAt(boxes: seq<Inbox>, ops: seq<Op>, k: nat)
    requires |boxes| == |ops| + 1 && k < |ops|
  {
    Possible(boxes[k], ops[k]) && boxes[k + 1] == Do(boxes[k], ops[k])
  }

  ghost predicate History(boxes: seq<Inbox>, ops: seq<Op>) {
    |boxes| == |ops| + 1 && boxes[0].rows == map[] && forall k :: 0 <= k < |ops| ==> OpAt(boxes, ops, k)
  }

  ghost function AppliedTo(box: Inbox, a: AttemptId): set<Pk> {
    set pk | pk in box.rows && box.rows[pk].applied && box.rows[pk].attempt == Some(a)
  }

  /** The operation that applies a row, if `op` is one. */
  ghost predicate Applies(box: Inbox, op: Op, pk: Pk)
    requires Possible(box, op)
  {
    op.Retry? && op.pk == pk && !box.rows[pk].applied && Do(box, op).rows[pk].applied
  }

  /** An attempt changes only together with a row turning applied, and an
      applied row never changes its verdict or its attempt again. */
  lemma OneChangePerRow(box: Inbox, op: Op, a: AttemptId)
    requires Possible(box, op) && a in box.attempts
    ensures a in Do(box, op).attempts
    ensures Do(box, op).attempts[a] != box.attempts[a] ==>
      op.Retry? && Applies(box, op, op.pk) && Do(box, op).rows[op.pk].attempt == Some(a)
    ensures forall pk :: pk in box.rows && box.rows[pk].applied ==>
      Do(box, op).rows[pk].applied && Do(box, op).rows[pk].attempt == box.rows[pk].attempt
  {
  }

  ghost predicate AppliesTo(box: Inbox, op: Op, a: AttemptId)
    requires Possible(box, op)
  {
    op.Retry? && Applies(box, op, op.pk) && Do(box, op).rows[op.pk].attempt == Some(a)
  }

  lemma AppliedRowsGrow(box: Inbox, op: Op, a: AttemptId)
    requires Possible(box, op)
    ensures AppliedTo(Do(box, op), a) == AppliedTo(box, a) + if AppliesTo(box, op, a) then {op.pk} else {}
    ensures AppliesTo(box, op, a) ==> op.pk !in AppliedTo(box, a)
  {
  }

  lemma CountMoves(box: Inbox, op: Op, a: AttemptId)
    requires Possible(box, op) && a in box.attempts
    ensures a in Do(box, op).attempts
    ensures Do(box, op).attempts[a].callbackCount
         == box.attempts[a].callbackCount + if AppliesTo(box, op, a) then 1 else 0
  {
  }

  /** The callback counter has moved by exactly the applied rows of the
      attempt, whatever was duplicated, retried or replayed. */
  lemma {:induction false} CountsAppliedRows(boxes: seq<Inbox>, ops: seq<Op>, k: nat, a: AttemptId)
    requires History(boxes, ops) && k < |boxes| && a in boxes[0].attempts
    ensures a in boxes[k].attempts
    ensures boxes[k].attempts[a].callbackCount == boxes[0].attempts[a].callbackCount + |AppliedTo(boxes[k], a)|
  {
    if k == 0 {
      assert AppliedTo(boxes[0], a) == {};
    } else {
      CountsAppliedRows(boxes, ops, k - 1, a);
      assert OpAt(boxes, ops, k - 1);
      AppliedRowsGrow(boxes[k - 1], ops[k - 1], a);
      CountMoves(boxes[k - 1], ops[k - 1], a);
    }
  }

  /** Once set, the first callback time stays. */
  lemma {:induction false} CallbackAtSetOnce(boxes: seq<Inbox>, ops: seq<Op>, j: nat, k: nat, a: AttemptId)
    requires History(boxes, ops) && j <= k < |boxes| && a in boxes[j].attempts && boxes[j].attempts[a].callbackAt.Some?
    ensures a in boxes[k].attempts && boxes[k].attempts[a].callbackAt == boxes[j].attempts[a].callbackAt
  {
    if j < k {
      CallbackAtSetOnce(boxes, ops, j, k - 1, a);
      assert OpAt(boxes, ops, k - 1);
    }
  }

  ghost predicate Reconciles(box: Inbox, op: Op) {
    op.Retry? && op.pk in box.rows && box.rows[op.pk].key.event == Reconciliation
  }

  /** A completed attempt keeps its status until a reconciliation event. */
  lemma {:induction false} CompletedUntilReconciled(boxes: seq<Inbox>, ops: seq<Op>, j: nat, k: nat, a: AttemptId)
    requires History(boxes, ops) && j <= k < |boxes| && a in boxes[j].attempts
    requires boxes[j].attempts[a].status == COMPLETED
    requires forall i :: j <= i < k ==> !Reconciles(boxes[i], ops[i])
    ensures a in boxes[k].attempts && boxes[k].attempts[a].status == COMPLETED
  {
    if j < k {
      CompletedUntilReconciled(boxes, ops, j, k - 1, a);
      assert OpAt(boxes, ops, k - 1);
      assert !Reconciles(boxes[k - 1], ops[k - 1]);
    }
  }

  /** An attempt turns completed only through a completion event. */
  lemma OnlyCompletionCompletes(box: Inbox, op: Op, a: AttemptId)
    requires Possible(box, op) && a in box.attempts
    requires box.attempts[a].status != COMPLETED && Do(box, op).attempts[a].status == COMPLETED
    ensures op.Retry? && box.rows[op.pk].key.event == MemberComplete && Applies(box, op, op.pk)
  {
  }

  // ---- How many rows one payload gets ----

  /** The keys stored after deliveries of one payload that resolved to
      `links`, one after the other. */
  function StoreAll(keys: set<Key>, event: EventType, identity: string, links: seq<Option<nat>>): set<Key> {
    if links == [] then keys
    else StoreKey(StoreAll(keys, event, identity, links[..|links| - 1]), Key(event, identity, links[|links| - 1]))
  }

  predicate LinkHeld(links: seq<Option<nat>>) {
    links != [] && (links[0] == None || forall i :: 0 <= i < |links| ==> links[i] == links[0])
  }

  /** The anonymous-hash fallback works one way: a payload keeps a single row
      exactly when its first delivery was unlinked or no later delivery
      resolved differently. */
  lemma {:induction false} OneRowIff(keys: set<Key>, event: EventType, identity: string, links: seq<Option<nat>>)
    requires links != [] && forall k :: k in keys ==> k.event != event || k.identity != identity
    ensures keys + {Key(event, identity, links[0])} <= StoreAll(keys, event, identity, links)
    ensures StoreAll(keys, event, identity, links) == keys + {Key(event, identity, links[0])} <==> LinkHeld(links)
  {
    var earlier, last := links[..|links| - 1], links[|links| - 1];
    var first := Key(event, identity, links[0]);
    if earlier == [] {
      assert StoreAll(keys, event, identity, earlier) == keys;
    } else {
      OneRowIff(keys, event, identity, earlier);
      assert links[0] == earlier[0];
      var stored := StoreAll(keys, event, identity, earlier);
      if LinkHeld(earlier) {
        assert stored == keys + {first};
        assert LinkHeld(links) <==> links[0] == None || last == links[0];
        var key := Key(event, identity, last);
        assert last != links[0] && links[0] != None ==> key in StoreKey(stored, key);
      } else {
        var i :| 0 <= i < |earlier| && earlier[i] != earlier[0];
        assert links[i] != links[0];
        assert stored <= StoreAll(keys, event, identity, links);
      }
    }
  }
}
