/** Tables of the profile reuse allocator and the effect of each of its short
    transactions (prescreener_vault/reuse.py).  The first five tables live in
    the operational database, `vault` in the isolated prescreener database, so
    no transaction below touches both sides.

    Instants are integers and every policy delay is in the same unit.  Months
    are numbered consecutively.  UIDs are numbered in the order the vault sorts
    them.  Settings never change: they are an argument, not part of the state. */
module ReuseModel {
  import opened Counting

  type Uid = nat
  type AttemptId = nat
  type SurveyId = nat
  type IntegrationId = nat
  type Month = nat
  type Instant = int

  /** What an answer is about: the attributes named below, or any other. */
  datatype Attribute = Country | Language | Gender | Age | Group | BirthDate | Ethnicity | Postal | Other(name: string)
  type Dimensions = map<Attribute, set<string>>

  datatype Pool = FirstReuse | ReturningReuse

  datatype AgeGroup =
    | NoGroup
    | Ages13To17 | Ages18To24 | Ages25To29 | Ages30To34 | Ages35To39 | Ages40To44 | Ages45To49 | Ages50To54

  /** Percentages count hundredths of a percent, the columns' two decimals. */
  datatype Policy = Policy(enabled: bool, percentage: nat, repeatPercentage: Option<nat>, firstDelay: nat,
                           minInterval: nat, maxUses: nat, window: nat, clientCode: string,
                           ageGroups: set<AgeGroup>, genders: set<string>)

  /** Text operations that nothing below depends on: lower-casing, decimal
      digits, the names of the age groups, `_normalize_profile_value`, and the
      age that the first readable one of some dates of birth gives at a time. */
  datatype Text = Text(lower: string -> string, digits: nat -> string, groupName: AgeGroup -> string,
                       normal: (Attribute, string) -> string, bornAge: (set<string>, Instant) -> Option<nat>)

  /** `lateAttempts` says whether an attempt stamped in one month may become
      visible when that month is already over. */
  datatype Settings = Settings(policy: IntegrationId -> Policy, integrationOf: SurveyId -> IntegrationId,
                               lateAttempts: bool, text: Text)

  datatype Attempt = Attempt(survey: SurveyId, initiated: Month, prescreener: Uid, provider: Option<Uid>) {
    /** The identities under which this journey has been on its survey. */
    ghost predicate Uses(u: Uid) { prescreener == u || provider == Some(u) }
  }

  /** Key of a ProfileReuseMonthlyCounter row. */
  datatype Slot = Slot(integration: IntegrationId, month: Month)

  datatype Counter = Counter(baseline: nat, target: nat, claimed: nat, first: nat, repeated: nat)

  /** `dimensions` are the stored answers, already trimmed and lower-cased; age
      and age group are columns that every reservation rewrites. */
  datatype VaultRow = VaultRow(clientCode: string, country: string, countryName: string, language: string,
                               languageName: string, gender: string, age: Option<nat>, ageGroup: AgeGroup,
                               ethnicity: string, postal: string, submitted: Instant, dimensions: Dimensions,
                               usage: nat, lastReused: Option<Instant>)

  /** Key and value of a ProfileReuseState row. */
  datatype Profile = Profile(integration: IntegrationId, uid: Uid)
  datatype StateRow = StateRow(last: Option<Instant>, total: nat)

  /** A ProfileReuseEvent.  `stamp` and `month` are history, not columns: the
      instant this commit wrote to the state row, and the slot it consumed. */
  datatype Event = Event(attempt: AttemptId, survey: SurveyId, integration: IntegrationId, uid: Uid,
                         created: Instant, pool: Pool, usageNumber: nat, stamp: Instant, month: Month)

  datatype Usage = Usage(integration: IntegrationId, survey: SurveyId, uid: Uid)

  datatype Db = Db(attempts: map<AttemptId, Attempt>, counters: map<Slot, Counter>,
                   states: map<Profile, StateRow>, usages: set<Usage>, events: seq<Event>,
                   vault: map<Uid, VaultRow>)

  // ---- The monthly budget ----

  datatype Source = PreviousMonth | CurrentMonthBootstrap
  datatype Reading = Reading(live: nat, source: Source)

  function AttemptsIn(cfg: Settings, db: Db, i: IntegrationId, month: Month): nat {
    |set a | a in db.attempts && cfg.integrationOf(db.attempts[a].survey) == i && db.attempts[a].initiated == month|
  }

  function AttemptsFrom(cfg: Settings, db: Db, i: IntegrationId, month: Month): nat {
    |set a | a in db.attempts && cfg.integrationOf(db.attempts[a].survey) == i && db.attempts[a].initiated >= month|
  }

  function PreviousAttempts(cfg: Settings, db: Db, k: Slot): nat {
    if k.month == 0 then 0 else AttemptsIn(cfg, db, k.integration, k.month - 1)
  }

  function Baseline(cfg: Settings, db: Db, k: Slot): Reading {
    var previous := PreviousAttempts(cfg, db, k);
    if previous > 0 then Reading(previous, PreviousMonth)
    else Reading(AttemptsFrom(cfg, db, k.integration, k.month), CurrentMonthBootstrap)
  }

  function Target(percentage: nat, baseline: nat): nat {
    baseline * percentage / 10000
  }

  lemma TargetMonotone(percentage: nat, low: nat, high: nat)
    requires low <= high
    ensures Target(percentage, low) <= Target(percentage, high)
  {
    assert low * percentage <= high * percentage;
  }

  /** The target is rounded down to whole reuses. */
  lemma TargetIsFloor(percentage: nat, baseline: nat)
    ensures Target(percentage, baseline) * 10000 <= baseline * percentage < (Target(percentage, baseline) + 1) * 10000
  {
  }

  const EMPTY_COUNTER := Counter(0, 0, 0, 0, 0)

  /** The counter row that `_claim_month_slot` locks, created when missing. */
  function CounterAt(db: Db, k: Slot): Counter {
    if k in db.counters then db.counters[k] else EMPTY_COUNTER
  }

  /** The baseline a claim stores for a reading taken before the row lock. */
  function ClaimedBaseline(db: Db, k: Slot, reading: Reading): nat {
    if k !in db.counters || reading.source == PreviousMonth || reading.live > db.counters[k].baseline
    then reading.live else db.counters[k].baseline
  }

  function ClaimSlot(db: Db, k: Slot, percentage: nat, reading: Reading): (Db, bool) {
    var c := CounterAt(db, k);
    var baseline := ClaimedBaseline(db, k, reading);
    var target := Target(percentage, baseline);
    var granted := 0 < target && c.claimed < target;
    var c' := c.(baseline := baseline, target := target, claimed := if granted then c.claimed + 1 else c.claimed);
    (db.(counters := db.counters[k := c']), granted)
  }

  function ReleaseSlot(db: Db, k: Slot): Db {
    if k in db.counters && db.counters[k].claimed > 0 then
      db.(counters := db.counters[k := db.counters[k].(claimed := db.counters[k].claimed - 1)])
    else db
  }

  function MarkPool(db: Db, k: Slot, pool: Pool): Db {
    if k !in db.counters then db
    else if pool == FirstReuse then
      db.(counters := db.counters[k := db.counters[k].(first := db.counters[k].first + 1)])
    else
      db.(counters := db.counters[k := db.counters[k].(repeated := db.counters[k].repeated + 1)])
  }

  // ---- The vault side ----

  const OPEN_ENDED_AGE_MAX := 99

  /** `_age_group`, empty outside the bands. */
  function AgeGroupOf(age: Option<int>): AgeGroup {
    if age.None? then NoGroup
    else if 13 <= age.value <= 17 then Ages13To17
    else if 18 <= age.value <= 24 then Ages18To24
    else if 25 <= age.value <= 29 then Ages25To29
    else if 30 <= age.value <= 34 then Ages30To34
    else if 35 <= age.value <= 39 then Ages35To39
    else if 40 <= age.value <= 44 then Ages40To44
    else if 45 <= age.value <= 49 then Ages45To49
    else if 50 <= age.value <= 54 then Ages50To54
    else NoGroup
  }

  /** `_candidate_age_groups`: the vault may be up to two years behind. */
  function CandidateAgeGroups(age: Option<nat>): set<AgeGroup> {
    match age
    case None => {}
    case Some(a) => {AgeGroupOf(Some(a)), AgeGroupOf(Some(a - 1)), AgeGroupOf(Some(a - 2))} - {NoGroup}
  }

  const GENDERS := {"male", "female"}

  function GenderAliases(gender: string): set<string> {
    if gender == "male" then {"male", "m", "man"}
    else if gender == "female" then {"female", "f", "woman"}
    else {gender}
  }

  function NormalGender(text: Text, value: string): string {
    var lowered := text.lower(value);
    if lowered in GenderAliases("male") then "male"
    else if lowered in GenderAliases("female") then "female"
    else lowered
  }

  /** What the respondent must match: mapped answers and demographic scope. */
  datatype Signature = Signature(country: string, gender: string, age: Option<nat>, required: Dimensions)

  /** The scope checks before a slot is claimed. */
  predicate InScope(policy: Policy, signature: Signature) {
    policy.enabled && signature.country != "" &&
    AgeGroupOf(signature.age) != NoGroup && signature.gender in GENDERS &&
    AgeGroupOf(signature.age) in policy.ageGroups && signature.gender in policy.genders
  }

  /** `setdefault` */
  function Defaulted(dimensions: Dimensions, key: Attribute, value: string): Dimensions {
    if key in dimensions then dimensions else dimensions[key := {value}]
  }

  /** The stored date of birth counts before the age column. */
  function CurrentAge(text: Text, row: VaultRow, dimensions: Dimensions, at: Instant): Option<nat> {
    var born := if BirthDate in dimensions then text.bornAge(dimensions[BirthDate], at) else None;
    if born.Some? then born else row.age
  }

  function WithAge(text: Text, dimensions: Dimensions, age: Option<nat>): Dimensions {
    if age.Some? && 1 <= age.value <= OPEN_ENDED_AGE_MAX
    then dimensions[Age := {text.digits(age.value)}][Group := {text.groupName(AgeGroupOf(age))}]
    else dimensions
  }

  /** Country, language and gender, from the columns where no answer is stored. */
  function NamedDimensions(text: Text, row: VaultRow): Dimensions {
    var country := if row.country != "" then row.country else row.countryName;
    var language := if row.language != "" then row.language else row.languageName;
    var named := Defaulted(Defaulted(row.dimensions, Country, text.lower(country)), Language, text.lower(language));
    if row.gender != "" then Defaulted(named, Gender, NormalGender(text, row.gender)) else named
  }

  function AgedDimensions(text: Text, row: VaultRow, at: Instant): Dimensions {
    var named := NamedDimensions(text, row);
    WithAge(text, named, CurrentAge(text, row, named, at))
  }

  function AllDimensions(text: Text, row: VaultRow, at: Instant): Dimensions {
    var aged := AgedDimensions(text, row, at);
    var ethnic := if row.ethnicity != "" then Defaulted(aged, Ethnicity, text.normal(Ethnicity, row.ethnicity))
                  else aged;
    if row.postal != "" then Defaulted(ethnic, Postal, text.normal(Postal, row.postal)) else ethnic
  }

  /** `_candidate_dimensions`: the answers of a row as they read at a time. */
  function CandidateDimensions(text: Text, row: VaultRow, at: Instant): Dimensions {
    var all := AllDimensions(text, row, at);
    map key | key in all :: all[key] - {""}
  }

  predicate MatchesKey(candidate: Dimensions, required: Dimensions, key: Attribute)
    requires key in required
  {
    (key == BirthDate && Age in required && required[Age] != {}) ||
    (key in candidate && candidate[key] != {} && candidate[key] == required[key])
  }

  /** `_matches_all_requirements`: every mapped answer, missing data never matches. */
  predicate MatchesAll(candidate: Dimensions, required: Dimensions) {
    forall key :: key in required ==> MatchesKey(candidate, required, key)
  }

  /** A column narrows the query when the answer has exactly one value. */
  predicate Narrowed(required: Dimensions, key: Attribute, column: string) {
    key in required && |required[key]| == 1 ==> column in required[key]
  }

  /** The WHERE clause of the candidate query. */
  predicate PassesFilter(policy: Policy, row: VaultRow, uid: Uid, own: Uid, signature: Signature,
                         excluded: set<Uid>, now: Instant)
  {
    row.clientCode == policy.clientCode && row.country == signature.country &&
    row.gender in GenderAliases(signature.gender) &&
    row.submitted <= now - policy.firstDelay &&
    (row.lastReused.Some? ==> row.lastReused.value <= now - policy.minInterval) &&
    uid != own && uid !in excluded &&
    (CandidateAgeGroups(signature.age) != {} ==> row.ageGroup in CandidateAgeGroups(signature.age)) &&
    Narrowed(signature.required, Postal, row.postal) &&
    Narrowed(signature.required, Ethnicity, row.ethnicity)
  }

  /** A reservation also rewrites the age columns, and no undo puts them back. */
  function ReserveRow(db: Db, u: Uid, now: Instant, age: Option<nat>): Db
    requires u in db.vault
  {
    var row := db.vault[u].(age := age, ageGroup := AgeGroupOf(age));
    db.(vault := db.vault[u := row.(usage := row.usage + 1, lastReused := Some(now))])
  }

  /** The guarded UPDATE of `_undo_vault_reservation`. */
  function UndoRow(db: Db, u: Uid, previous: Option<Instant>): Db {
    if u in db.vault && db.vault[u].usage > 1 then
      db.(vault := db.vault[u := db.vault[u].(usage := db.vault[u].usage - 1, lastReused := previous)])
    else db
  }

  // ---- The commit under operational locks ----

  function EventOf(u: Uid): Event -> bool { (e: Event) => e.uid == u }

  function Reuses(p: Profile): Event -> bool {
    (e: Event) => e.integration == p.integration && e.uid == p.uid
  }

  function Since(p: Profile, start: Instant): Event -> bool {
    (e: Event) => e.integration == p.integration && e.uid == p.uid && start <= e.created
  }

  function Within(p: Profile, start: Instant, end: Instant): Event -> bool {
    (e: Event) => e.integration == p.integration && e.uid == p.uid && start <= e.created <= end
  }

  function Charged(k: Slot, pool: Pool): Event -> bool {
    (e: Event) => e.integration == k.integration && e.month == k.month && e.pool == pool
  }

  function LatestCreated(events: seq<Event>, p: Profile): Option<Instant> {
    if events == [] then None
    else
      var earlier := LatestCreated(events[..|events| - 1], p);
      var e := events[|events| - 1];
      if Reuses(p)(e) && (earlier.None? || earlier.value <= e.created) then Some(e.created) else earlier
  }

  /** `_locked_state`: the existing row, or one rebuilt from the audit events. */
  function LockedState(db: Db, p: Profile): StateRow {
    if p in db.states then db.states[p]
    else StateRow(LatestCreated(db.events, p), CountIf(db.events, Reuses(p)))
  }

  predicate UsedOnSurvey(db: Db, survey: SurveyId, except: AttemptId, u: Uid) {
    exists b :: b in db.attempts && b != except && db.attempts[b].survey == survey &&
      (db.attempts[b].prescreener == u || db.attempts[b].provider == Some(u))
  }

  predicate HasEvent(db: Db, a: AttemptId) {
    exists j :: 0 <= j < |db.events| && db.events[j].attempt == a
  }

  datatype Claimed = Claimed(uid: Uid, pool: Pool, usageNumber: nat, month: Month)

  /** The checks of `_commit_reuse` and the unique constraints behind them;
      `stamp` was read before the locks, the event's `created_at` inside. */
  predicate MayCommit(cfg: Settings, db: Db, a: AttemptId, c: Claimed, stamp: Instant)
    requires a in db.attempts
  {
    var survey := db.attempts[a].survey;
    var p := Profile(cfg.integrationOf(survey), c.uid);
    var policy := cfg.policy(p.integration);
    var last := LockedState(db, p).last;
    db.attempts[a].provider.None? &&
    (last.Some? ==> last.value <= stamp - policy.minInterval) &&
    !UsedOnSurvey(db, survey, a, c.uid) &&
    Usage(p.integration, survey, c.uid) !in db.usages &&
    CountIf(db.events, Since(p, stamp - policy.window)) < policy.maxUses &&
    !HasEvent(db, a)
  }

  function NewEvent(cfg: Settings, db: Db, a: AttemptId, c: Claimed, stamp: Instant, clock: Instant): Event
    requires a in db.attempts
  {
    var survey := db.attempts[a].survey;
    Event(a, survey, cfg.integrationOf(survey), c.uid, clock, c.pool, c.usageNumber, stamp, c.month)
  }

  /** The committed transaction: attempt, project lock, event and state row. */
  function CommitReuse(cfg: Settings, db: Db, a: AttemptId, c: Claimed, stamp: Instant, clock: Instant): Db
    requires a in db.attempts
  {
    var e := NewEvent(cfg, db, a, c, stamp, clock);
    var p := Profile(e.integration, c.uid);
    db.(attempts := db.attempts[a := db.attempts[a].(provider := Some(c.uid))],
        usages := db.usages + {Usage(e.integration, e.survey, c.uid)},
        events := db.events + [e],
        states := db.states[p := StateRow(Some(stamp), LockedState(db, p).total + 1)])
  }
}
