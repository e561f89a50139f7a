/** DAVE transition bookkeeping (`src/dave.rs` and the opcode arms of `src/voice_conn.rs`). The MLS session
    is outside: an event says how it answered. Times are milliseconds. */
module Dave {
  import opened Bytes

  const PENDING_DOWNGRADE_AUTO_EXECUTE_SECS: nat := 3

  datatype State = State(
    protocolVersion: u16,
    pending: map<u16, u16>,
    lastTransitionId: u16,
    reinitializing: bool,
    downgradeSince: Option<nat>)

  /** What the MLS session made of a commit; on failure, whether the session could be reinitialized. */
  datatype CommitResult = Committed | Rejected(reinits: bool)

  /** The same for a welcome, which the session may find superfluous. */
  datatype WelcomeResult = Joined | AlreadyInGroup | Refused(reinits: bool)

  datatype Event =
    | Prepare(id: u16, version: u16, now: nat)      // OP21
    | Execute(id: u16)                              // OP22
    | PrepareEpoch(version: u16, reinits: bool)     // OP24 with a manager in place
    | Commit(id: u16, result: CommitResult)         // OP29
    | Welcome(id: u16, answer: WelcomeResult)       // OP30
    | Poll(now: nat, pick: u16)                     // the downgrade timeout; `pick` is the map's first match

  // ---------------------------------------------------------------- specification

  function Executed(s: State, id: u16): State {
    if id !in s.pending then s
    else
      var version := s.pending[id];
      State(version, s.pending - {id}, id, false,
            if s.protocolVersion != version && version == 0 then None else s.downgradeSince)
  }

  function Prepared(s: State, id: u16, version: u16, now: nat): State {
    var s1 := s.(pending := s.pending[id := version]);
    if id == 0 then Executed(s1, 0)
    else if version == 0 then s1.(downgradeSince := Some(now))
    else s1
  }

  function Stored(s: State, id: u16): State {
    if id == 0 then s.(reinitializing := false, lastTransitionId := 0)
    else s.(pending := s.pending[id := s.protocolVersion])
  }

  /** A session at version 0 cannot be reinitialized. */
  function Reinitialized(s: State, succeeds: bool): State {
    if s.protocolVersion == 0 || !succeeds then s
    else s.(reinitializing := true, pending := map[], downgradeSince := None)
  }

  predicate IsDowngrade(s: State, id: u16) {
    id in s.pending && s.pending[id] == 0
  }

  ghost predicate HasDowngrade(s: State) {
    exists id: u16 :: IsDowngrade(s, id)
  }

  predicate TimedOut(s: State, now: nat) {
    s.downgradeSince.Some? && Max(now - s.downgradeSince.value, 0) / 1000 >= PENDING_DOWNGRADE_AUTO_EXECUTE_SECS
  }

  function Polled(s: State, now: nat, pick: u16): State {
    if !TimedOut(s, now) then s
    else if IsDowngrade(s, pick) then Executed(s, pick)
    else s.(downgradeSince := None)
  }

  function Step(s: State, e: Event): State {
    match e
    case Prepare(id, version, now) => Prepared(s, id, version, now)
    case Execute(id) => Executed(s, id)
    case PrepareEpoch(version, reinits) => if version > 0 then Reinitialized(s, reinits) else s
    case Commit(id, Committed) => Stored(s, id)
    case Commit(id, Rejected(reinits)) => Reinitialized(s, reinits)
    case Welcome(id, Joined) => Stored(s, id)
    case Welcome(id, AlreadyInGroup) => if id in s.pending then Stored(s, id) else s
    case Welcome(id, Refused(reinits)) => Reinitialized(s, reinits)
    case Poll(now, pick) => Polled(s, now, pick)
  }

  /** The id of the OP23 that the event makes the client send, if any. */
  function Ready(s: State, e: Event): Option<u16> {
    match e
    case Prepare(id, _, _) => if id != 0 then Some(id) else None
    case Commit(id, Committed) => if id != 0 then Some(id) else None
    case Welcome(id, Joined) => if id != 0 then Some(id) else None
    case Welcome(id, AlreadyInGroup) => if id in s.pending && id != 0 then Some(id) else None
    case _ => None
  }

  /** The transition that a failed commit or welcome invalidates, if the session could be reinitialized. */
  function Invalidated(s: State, e: Event): Option<u16> {
    match e
    case Commit(_, Rejected(true)) => if s.protocolVersion != 0 then Some(s.lastTransitionId) else None
    case Welcome(_, Refused(true)) => if s.protocolVersion != 0 then Some(s.lastTransitionId) else None
    case _ => None
  }

  /** `pick` is what the map search found: a version-0 entry whenever there is one. */
  ghost predicate Possible(s: State, e: Event) {
    e.Poll? && HasDowngrade(s) ==> IsDowngrade(s, e.pick)
  }

  // ---------------------------------------------------------------- the object

  class DaveManager {
    var protocolVersion: u16
    var pendingTransitions: map<u16, u16>
    var lastTransitionId: u16
    var reinitializing: bool
    var pendingDowngradeSince: Option<nat>

    function AsState(): State
      reads this
    {
      State(protocolVersion, pendingTransitions, lastTransitionId, reinitializing, pendingDowngradeSince)
    }

    constructor (version: u16)
      requires version != 0
      ensures AsState() == State(version, map[], 0, false, None)
    {
      protocolVersion := version;
      pendingTransitions := map[];
      lastTransitionId := 0;
      reinitializing := false;
      pendingDowngradeSince := None;
    }

    method PrepareTransition(id: u16, version: u16, now: nat) returns (sendReady: bool)
      modifies this
      ensures AsState() == Prepared(old(AsState()), id, version, now)
      ensures sendReady == Ready(old(AsState()), Prepare(id, version, now)).Some?
    {
      pendingTransitions := pendingTransitions[id := version];
      if id == 0 {
        var _ := ExecuteTransition(id);
        return false;
      }
      if version == 0 {
        pendingDowngradeSince := Some(now);
      }
      return true;
    }

    method ExecuteTransition(id: u16) returns (executed: bool)
      modifies this
      ensures AsState() == Executed(old(AsState()), id)
      ensures executed == (id in old(pendingTransitions))
    {
      if id !in pendingTransitions {
        return false;
      }
      var newVersion := pendingTransitions[id];
      pendingTransitions := pendingTransitions - {id};
      var oldVersion := protocolVersion;
      protocolVersion := newVersion;
      if oldVersion != newVersion && newVersion == 0 {
        pendingDowngradeSince := None;
      }
      reinitializing := false;
      lastTransitionId := id;
      return true;
    }

    method StorePendingTransition(id: u16)
      modifies this
      ensures AsState() == Stored(old(AsState()), id)
    {
      if id == 0 {
        reinitializing := false;
        lastTransitionId := 0;
        return;
      }
      pendingTransitions := pendingTransitions[id := protocolVersion];
    }

    method Reinit(succeeds: bool) returns (transitionId: Option<u16>)
      modifies this
      ensures AsState() == Reinitialized(old(AsState()), succeeds)
      ensures transitionId == if old(protocolVersion) != 0 && succeeds then Some(old(lastTransitionId)) else None
    {
      if protocolVersion == 0 || !succeeds {
        return None;
      }
      transitionId := Some(lastTransitionId);
      reinitializing := true;
      pendingTransitions := map[];
      pendingDowngradeSince := None;
    }

    /** Any version-0 entry may be found first. */
    method MaybeAutoExecuteDowngrade(now: nat) returns (id: Option<u16>)
      modifies this
      ensures exists pick :: Possible(old(AsState()), Poll(now, pick)) && AsState() == Polled(old(AsState()), now, pick)
      ensures id.Some? <==> TimedOut(old(AsState()), now) && HasDowngrade(old(AsState()))
    {
      ghost var s := AsState();
      if pendingDowngradeSince.None? || Max(now - pendingDowngradeSince.value, 0) / 1000 < PENDING_DOWNGRADE_AUTO_EXECUTE_SECS {
        ghost var pick: u16 := if HasDowngrade(s) then var p: u16 :| IsDowngrade(s, p); p else 0;
        assert Possible(s, Poll(now, pick));
        return None;
      }
      if exists t :: t in pendingTransitions && pendingTransitions[t] == 0 {
        var tid :| tid in pendingTransitions && pendingTransitions[tid] == 0;
        assert IsDowngrade(s, tid);
        assert Possible(s, Poll(now, tid));
        var _ := ExecuteTransition(tid);
        return Some(tid);
      } else {
        pendingDowngradeSince := None;
        assert Possible(s, Poll(now, 0));
        return None;
      }
    }
  }

  // ---------------------------------------------------------------- the opcode arms

  /** OP21. Each arm says under which id an OP23 goes out, if any. */
  method OnPrepareTransition(dm: DaveManager, id: u16, version: u16, now: nat) returns (ready: Option<u16>)
    modifies dm
    ensures dm.AsState() == Step(old(dm.AsState()), Prepare(id, version, now))
    ensures ready == Ready(old(dm.AsState()), Prepare(id, version, now))
  {
    var sendReady := dm.PrepareTransition(id, version, now);
    ready := if sendReady then Some(id) else None;
  }

  /** OP22. */
  method OnExecuteTransition(dm: DaveManager, id: u16) returns (transitioned: bool)
    modifies dm
    ensures dm.AsState() == Step(old(dm.AsState()), Execute(id))
    ensures transitioned <==> id in old(dm.AsState()).pending
  {
    transitioned := dm.ExecuteTransition(id);
  }

  /** OP24 with a manager in place. */
  method OnPrepareEpoch(dm: DaveManager, version: u16, reinits: bool)
    modifies dm
    ensures dm.AsState() == Step(old(dm.AsState()), PrepareEpoch(version, reinits))
  {
    if version > 0 {
      var _ := dm.Reinit(reinits);
    }
  }

  /** OP29. A recovery names the transition to invalidate. */
  method OnCommit(dm: DaveManager, id: u16, result: CommitResult) returns (ready: Option<u16>, recovery: Option<u16>)
    modifies dm
    ensures dm.AsState() == Step(old(dm.AsState()), Commit(id, result))
    ensures ready == Ready(old(dm.AsState()), Commit(id, result))
    ensures recovery == Invalidated(old(dm.AsState()), Commit(id, result))
  {
    ready, recovery := None, None;
    match result {
      case Committed =>
        dm.StorePendingTransition(id);
        if id != 0 {
          ready := Some(id);
        }
      case Rejected(reinits) =>
        recovery := dm.Reinit(reinits);
    }
  }

  /** OP30. A welcome for a group already joined counts only while its transition is pending. */
  method OnWelcome(dm: DaveManager, id: u16, answer: WelcomeResult) returns (ready: Option<u16>, recovery: Option<u16>)
    modifies dm
    ensures dm.AsState() == Step(old(dm.AsState()), Welcome(id, answer))
    ensures ready == Ready(old(dm.AsState()), Welcome(id, answer))
    ensures recovery == Invalidated(old(dm.AsState()), Welcome(id, answer))
  {
    ready, recovery := None, None;
    var success := false;
    match answer {
      case Joined =>
        dm.StorePendingTransition(id);
        success := true;
      case AlreadyInGroup =>
        if id in dm.pendingTransitions {
          dm.StorePendingTransition(id);
          success := true;
        }
      case Refused(reinits) =>
        recovery := dm.Reinit(reinits);
    }
    if success && id != 0 {
      ready := Some(id);
    }
  }

  // ---------------------------------------------------------------- every run

  /** A run together with a serial number for every record and the list of executed serials. */
  datatype Book = Book(s: State, serials: map<u16, nat>, next: nat, executed: seq<nat>)

  function Recorded(b: Book, s: State, id: u16): Book {
    Book(s, b.serials[id := b.next], b.next + 1, b.executed)
  }

  function Spent(b: Book, s: State, id: u16): Book {
    if id in b.serials then Book(s, b.serials - {id}, b.next, b.executed + [b.serials[id]]) else b.(s := s)
  }

  /** The books follow the state: a record is made, spent or dropped exactly when the manager does so. */
  function BookStep(b: Book, e: Event): Book {
    var s' := Step(b.s, e);
    match e
    case Prepare(id, _, _) =>
      var r := Recorded(b, s', id);
      if id == 0 then Spent(r, s', id) else r
    case Execute(id) => Spent(b, s', id)
    case Poll(now, pick) => if TimedOut(b.s, now) && IsDowngrade(b.s, pick) then Spent(b, s', pick) else b.(s := s')
    case Commit(id, Committed) => if id != 0 then Recorded(b, s', id) else b.(s := s')
    case Welcome(id, Joined) => if id != 0 then Recorded(b, s', id) else b.(s := s')
    case Welcome(id, AlreadyInGroup) => if id in b.s.pending && id != 0 then Recorded(b, s', id) else b.(s := s')
    case _ => Book(s', if s'.pending == map[] then map[] else b.serials, b.next, b.executed)
  }

  ghost predicate Kept(b: Book) {
    && 0 !in b.s.pending
    && b.serials.Keys == b.s.pending.Keys
    && (forall i | i in b.serials :: b.serials[i] < b.next && b.serials[i] !in b.executed)
    && (forall i, j | i in b.serials && j in b.serials && i != j :: b.serials[i] != b.serials[j])
    && (forall x | x in b.executed :: x < b.next)
    && (forall i, j | 0 <= i < j < |b.executed| :: b.executed[i] != b.executed[j])
  }

  lemma {:induction false} RecordedKept(b: Book, s: State, id: u16)
    requires Kept(b) && s.pending.Keys == b.s.pending.Keys + {id}
    ensures id != 0 ==> Kept(Recorded(b, s, id))
  {
  }

  lemma {:induction false} SpentKept(b: Book, s: State, id: u16)
    requires Kept(b) && s.pending.Keys == b.s.pending.Keys - {id}
    ensures Kept(Spent(b, s, id))
  {
  }

  /** Preparing transition 0 records it and spends the record at once. */
  lemma {:induction false} ImmediateKept(b: Book, s: State)
    requires Kept(b) && s.pending.Keys == b.s.pending.Keys
    ensures Kept(Spent(Recorded(b, s, 0), s, 0))
  {
    assert (b.serials[0 := b.next] - {0}).Keys == b.serials.Keys;
    assert forall i | 0 <= i < |b.executed| :: b.executed[i] in b.executed;
  }

  lemma {:induction false} PrepareKept(b: Book, id: u16, version: u16, now: nat)
    requires Kept(b)
    ensures Kept(BookStep(b, Prepare(id, version, now))) && BookStep(b, Prepare(id, version, now)).s == Prepared(b.s, id, version, now)
  {
    var s' := Prepared(b.s, id, version, now);
    if id == 0 {
      assert (b.s.pending[0 := version] - {0}).Keys == b.s.pending.Keys;
      ImmediateKept(b, s');
    } else {
      RecordedKept(b, s', id);
    }
  }

  lemma {:induction false} ExecuteKept(b: Book, id: u16)
    requires Kept(b)
    ensures Kept(Spent(b, Executed(b.s, id), id)) && Spent(b, Executed(b.s, id), id).s == Executed(b.s, id)
  {
    SpentKept(b, Executed(b.s, id), id);
  }

  lemma {:induction false} BookStepKept(b: Book, e: Event)
    requires Kept(b) && Possible(b.s, e)
    ensures Kept(BookStep(b, e)) && BookStep(b, e).s == Step(b.s, e)
  {
    var s' := Step(b.s, e);
    match e
    case Prepare(id, version, now) => PrepareKept(b, id, version, now);
    case Execute(id) => ExecuteKept(b, id);
    case Poll(now, pick) => ExecuteKept(b, pick);
    case Commit(id, Committed) => if id != 0 { RecordedKept(b, s', id); }
    case Welcome(id, Joined) => if id != 0 { RecordedKept(b, s', id); }
    case Welcome(id, AlreadyInGroup) =>
      if id in b.s.pending && id != 0 { RecordedKept(b, s', id); }
    case _ =>
  }

  function RunBook(b: Book, es: seq<Event>): Book
    decreases |es|
  {
    if es == [] then b else RunBook(BookStep(b, es[0]), es[1..])
  }

  ghost predicate AllPossible(s: State, es: seq<Event>)
    decreases |es|
  {
    es != [] ==> Possible(s, es[0]) && AllPossible(Step(s, es[0]), es[1..])
  }

  /** In every run transition 0 is never left pending and no record is executed twice. */
  lemma {:induction false} RunKept(b: Book, es: seq<Event>)
    requires Kept(b) && AllPossible(b.s, es)
    ensures Kept(RunBook(b, es))
    decreases |es|
  {
    if es != [] {
      BookStepKept(b, es[0]);
      RunKept(BookStep(b, es[0]), es[1..]);
    }
  }

  /** A step changes the version only by spending a record, and then to the version that record holds; OP23
      goes out only for a non-zero id that is pending afterwards; a timed-out poll leaves version 0 or no
      version-0 entry. */
  lemma {:induction false} StepAccounts(s: State, e: Event)
    requires 0 !in s.pending && Possible(s, e)
    ensures var s' := Step(s, e);
            && (s'.protocolVersion != s.protocolVersion ==>
                  || (e.Prepare? && e.id == 0 && s'.protocolVersion == e.version)
                  || exists id :: id in s.pending && id !in s'.pending && s'.lastTransitionId == id
                                  && s'.protocolVersion == s.pending[id])
            && (Ready(s, e).Some? ==> Ready(s, e).value != 0 && Ready(s, e).value in s'.pending)
            && (e.Poll? && TimedOut(s, e.now) ==> s'.protocolVersion == 0 || !HasDowngrade(s'))
            && (e.Poll? && TimedOut(s, e.now) && !HasDowngrade(s) ==> s' == s.(downgradeSince := None))
  {
    assert e.Poll? ==> forall id: u16 :: IsDowngrade(Step(s, e), id) ==> IsDowngrade(s, id);
  }

  function Run(s: State, es: seq<Event>): State
    decreases |es|
  {
    if es == [] then s else Run(Step(s, es[0]), es[1..])
  }

  /** The versions in force, recorded, or announced by an OP21 of the run. */
  ghost predicate Known(s: State, es: seq<Event>, version: u16) {
    || version == s.protocolVersion
    || version in s.pending.Values
    || exists k :: 0 <= k < |es| && es[k].Prepare? && es[k].version == version
  }

  lemma {:induction false} StepKnown(s: State, e: Event, es: seq<Event>, version: u16)
    requires Known(Step(s, e), es, version)
    ensures Known(s, [e] + es, version)
  {
    if k :| 0 <= k < |es| && es[k].Prepare? && es[k].version == version {
      assert ([e] + es)[k + 1] == es[k];
    }
    assert ([e] + es)[0] == e;
  }

  /** No run of opcodes and polls puts a protocol version in force that was not in force or recorded before
      and that no OP21 of the run announced. */
  lemma {:induction false} VersionWasAnnounced(s: State, es: seq<Event>)
    ensures Known(s, es, Run(s, es).protocolVersion)
    decreases |es|
  {
    if es != [] {
      VersionWasAnnounced(Step(s, es[0]), es[1..]);
      assert [es[0]] + es[1..] == es;
      StepKnown(s, es[0], es[1..], Run(s, es).protocolVersion);
    }
  }

  /** The id that an event records or confirms, if it does. */
  function Confirms(e: Event): Option<u16> {
    match e
    case Prepare(id, _, _) => Some(id)
    case Commit(id, Committed) => Some(id)
    case Welcome(id, Joined) => Some(id)
    case Welcome(id, AlreadyInGroup) => Some(id)
    case _ => None
  }

  /** OP23 goes out for an id exactly when the event confirms it, it is not 0 and it is pending afterwards. */
  lemma {:induction false} ReadyIff(s: State, e: Event, id: u16)
    ensures Ready(s, e) == Some(id) <==> Confirms(e) == Some(id) && id != 0 && id in Step(s, e).pending
  {
  }

  /** A successful commit or welcome under an id records the version in force, whatever was recorded under
      that id before: executing it changes no version. */
  lemma {:induction false} ConfirmedKeepsVersion(s: State, e: Event)
    requires e.Commit? || e.Welcome?
    requires Confirms(e).Some? && Confirms(e).value in Step(s, e).pending
    requires 0 !in s.pending
    ensures Executed(Step(s, e), Confirms(e).value).protocolVersion == s.protocolVersion
  {
  }

  /** So a commit under the id of a prepared downgrade takes the downgrade's place. */
  lemma {:induction false} CommitReplacesDowngrade(s: State, id: u16, now: nat)
    requires id != 0 && 0 !in s.pending
    ensures var s' := Step(Step(s, Prepare(id, 0, now)), Commit(id, Committed));
            id in s'.pending && Executed(s', id).protocolVersion == s.protocolVersion
  {
    ConfirmedKeepsVersion(Step(s, Prepare(id, 0, now)), Commit(id, Committed));
  }

  // ---------------------------------------------------------------- reinitialization

  predicate Reinitializes(s: State, e: Event) {
    && s.protocolVersion != 0
    && (match e
        case PrepareEpoch(version, reinits) => version > 0 && reinits
        case Commit(_, Rejected(reinits)) => reinits
        case Welcome(_, Refused(reinits)) => reinits
        case _ => false)
  }

  /** Events that bring no new record. */
  predicate BringsNone(e: Event) {
    !e.Prepare? && !e.Commit? && !e.Welcome?
  }

  predicate NothingPending(s: State) {
    s.pending == map[] && s.downgradeSince.None?
  }

  lemma {:induction false} NothingHappens(s: State, es: seq<Event>)
    requires NothingPending(s) && forall k | 0 <= k < |es| :: BringsNone(es[k])
    ensures NothingPending(Run(s, es)) && Run(s, es).protocolVersion == s.protocolVersion
    ensures Run(s, es).lastTransitionId == s.lastTransitionId
    decreases |es|
  {
    if es != [] { NothingHappens(Step(s, es[0]), es[1..]); }
  }

  /** A reinitialized session waits: nothing is pending, no timer runs, and until the next OP21, OP29 or OP30
      neither OP22 nor a poll changes the version. */
  lemma {:induction false} ReinitializationForgets(s: State, e: Event, es: seq<Event>)
    requires Reinitializes(s, e) && forall k | 0 <= k < |es| :: BringsNone(es[k])
    ensures Step(s, e).reinitializing && NothingPending(Step(s, e))
    ensures Run(Step(s, e), es).protocolVersion == s.protocolVersion
  {
    NothingHappens(Step(s, e), es);
  }

  /** An OP22 or downgrade poll that executes the id, or a success under id 0. */
  function Settles(s: State, e: Event): Option<u16> {
    match e
    case Prepare(id, _, _) => if id == 0 then Some(0) else None
    case Execute(id) => if id in s.pending then Some(id) else None
    case Commit(id, Committed) => if id == 0 then Some(0) else None
    case Welcome(id, Joined) => if id == 0 then Some(0) else None
    case Poll(now, pick) => if TimedOut(s, now) && IsDowngrade(s, pick) then Some(pick) else None
    case _ => None
  }

  /** What a recovery would name and whether the session is being reinitialized, told from the events. */
  datatype Told = Told(last: u16, reinitializing: bool)

  function Tell(s: State, t: Told, es: seq<Event>): Told
    decreases |es|
  {
    if es == [] then t
    else
      var next := if Settles(s, es[0]).Some? then Told(Settles(s, es[0]).value, false)
                  else if Reinitializes(s, es[0]) then Told(t.last, true) else t;
      Tell(Step(s, es[0]), next, es[1..])
  }

  /** In every run, the transition that a recovery invalidates is the last one that took effect, and the
      session counts as reinitializing exactly if no transition took effect since the last reinitialization. */
  lemma {:induction false} RecoveryNamesLast(s: State, es: seq<Event>)
    requires 0 !in s.pending
    ensures var (s', t) := (Run(s, es), Tell(s, Told(s.lastTransitionId, s.reinitializing), es));
            0 !in s'.pending && s'.lastTransitionId == t.last && s'.reinitializing == t.reinitializing
    decreases |es|
  {
    if es != [] { RecoveryNamesLast(Step(s, es[0]), es[1..]); }
  }

  // ---------------------------------------------------------------- is a prepared downgrade honoured?

  /** An OP21 that starts the timer. */
  predicate Arms(e: Event) {
    e.Prepare? && e.id != 0 && e.version == 0
  }

  /** A step that puts version 0 in force. */
  predicate Downgrades(s: State, e: Event) {
    s.protocolVersion != 0 && Step(s, e).protocolVersion == 0
  }

  /** Of the events that arm the timer or downgrade, the last one arms; without any, `initially` decides. */
  predicate LastArms(s: State, es: seq<Event>, initially: bool)
    decreases |es|
  {
    if es == [] then initially
    else LastArms(Step(s, es[0]), es[1..], Arms(es[0]) || (initially && !Downgrades(s, es[0])))
  }

  /** Throughout a run `id` stays recorded as a downgrade. */
  predicate StaysRecorded(s: State, es: seq<Event>, id: u16)
    decreases |es|
  {
    IsDowngrade(s, id) && (es != [] ==> StaysRecorded(Step(s, es[0]), es[1..], id))
  }

  /** No preparation happens after `deadline`. */
  ghost predicate PreparedBy(es: seq<Event>, deadline: nat) {
    forall k | 0 <= k < |es| && es[k].Prepare? :: es[k].now <= deadline
  }

  lemma {:induction false} TimerRunsIff(s: State, es: seq<Event>, id: u16, last: nat)
    requires StaysRecorded(s, es, id) && AllPossible(s, es) && PreparedBy(es, last)
    requires s.downgradeSince.Some? ==> s.downgradeSince.value <= last
    ensures IsDowngrade(Run(s, es), id)
    ensures Run(s, es).downgradeSince.Some? <==> LastArms(s, es, s.downgradeSince.Some?)
    ensures Run(s, es).downgradeSince.Some? ==> Run(s, es).downgradeSince.value <= last
    decreases |es|
  {
    if es != [] {
      var s' := Step(s, es[0]);
      assert HasDowngrade(s);
      TimerStep(s, es[0], id);
      TimerRunsIff(s', es[1..], id, last);
    }
  }

  lemma {:induction false} TimerStep(s: State, e: Event, id: u16)
    requires IsDowngrade(s, id) && IsDowngrade(Step(s, e), id) && Possible(s, e)
    ensures var s' := Step(s, e);
            && (s'.downgradeSince.Some? <==> Arms(e) || (s.downgradeSince.Some? && !Downgrades(s, e)))
            && (s'.downgradeSince.Some? ==> s'.downgradeSince == s.downgradeSince || (e.Prepare? && s'.downgradeSince.value == e.now))
  {
    assert HasDowngrade(s);
  }

  /** A downgrade that stays recorded is in force after the first poll three seconds after the last
      preparation if and only if version 0 is in force anyway or, of the preparations of a downgrade and
      the downgrades executed meanwhile, a preparation came last. */
  lemma {:induction false} DowngradeHonouredIff(s: State, id: u16, es: seq<Event>, last: nat, now: nat, pick: u16)
    requires StaysRecorded(s, es, id) && AllPossible(s, es) && PreparedBy(es, last)
    requires s.downgradeSince.Some? ==> s.downgradeSince.value <= last
    requires now >= last + 3000 && Possible(Run(s, es), Poll(now, pick))
    ensures Polled(Run(s, es), now, pick).protocolVersion == 0 <==>
            Run(s, es).protocolVersion == 0 || LastArms(s, es, s.downgradeSince.Some?)
  {
    TimerRunsIff(s, es, id, last);
    assert HasDowngrade(Run(s, es));
  }

  lemma {:induction false} TimerIsNotReset(s: State, es: seq<Event>)
    requires forall k | 0 <= k < |es| :: !Arms(es[k])
    ensures Run(s, es).downgradeSince in {None, s.downgradeSince}
    decreases |es|
  {
    if es != [] { TimerIsNotReset(Step(s, es[0]), es[1..]); }
  }

  /** A poll less than three seconds after the last preparation of a downgrade changes nothing. */
  lemma {:induction false} PollWaits(s: State, id: u16, t: nat, es: seq<Event>, now: nat, pick: u16)
    requires id != 0 && now < t + 3000
    requires forall k | 0 <= k < |es| :: !Arms(es[k])
    ensures var s' := Run(Prepared(s, id, 0, t), es); Polled(s', now, pick) == s'
  {
    TimerIsNotReset(Prepared(s, id, 0, t), es);
  }

  /** Throughout a run the version is never 0 and `id` stays recorded as a downgrade. */
  predicate Waits(s: State, es: seq<Event>, id: u16)
    decreases |es|
  {
    && s.protocolVersion != 0 && IsDowngrade(s, id)
    && (es != [] ==> Waits(Step(s, es[0]), es[1..], id))
  }

  lemma {:induction false} WaitingStaysArmed(s: State, es: seq<Event>, id: u16)
    requires Waits(s, es, id)
    ensures StaysRecorded(s, es, id) && LastArms(s, es, true)
    decreases |es|
  {
    if es != [] {
      WaitingStaysArmed(Step(s, es[0]), es[1..], id);
    }
  }

  /** In particular, a downgrade prepared by OP21 is honoured whatever came between, as long as it was still
      recorded and no downgrade had happened meanwhile. */
  lemma {:induction false} DowngradeHonoured(s: State, id: u16, t: nat, es: seq<Event>, last: nat, now: nat, pick: u16)
    requires id != 0 && t <= last && now >= last + 3000
    requires var s1 := Prepared(s, id, 0, t);
             Waits(s1, es, id) && AllPossible(s1, es) && PreparedBy(es, last)
    requires var s2 := Run(Prepared(s, id, 0, t), es); Possible(s2, Poll(now, pick))
    ensures Polled(Run(Prepared(s, id, 0, t), es), now, pick).protocolVersion == 0
  {
    var s1 := Prepared(s, id, 0, t);
    WaitingStaysArmed(s1, es, id);
    DowngradeHonouredIff(s1, id, es, last, now, pick);
  }

  /** A failing input: once another downgrade was executed and undone, a downgrade that is still recorded has
      lost its timer, and no later poll executes it. */
  lemma {:induction false} DowngradeForgotten(now: nat, pick: u16)
    ensures var s := Run(State(1, map[], 0, false, None),
                         [Prepare(5, 0, 0), Prepare(6, 0, 0), Execute(5), Prepare(7, 1, 0), Execute(7)]);
            s.protocolVersion == 1 && IsDowngrade(s, 6) && Polled(s, now, pick) == s
  {
    var s0 := State(1, map[], 0, false, None);
    var s1 := Step(s0, Prepare(5, 0, 0));
    var s2 := Step(s1, Prepare(6, 0, 0));
    var s3 := Step(s2, Execute(5));
    var s4 := Step(s3, Prepare(7, 1, 0));
    var s5 := Step(s4, Execute(7));
    assert s5.protocolVersion == 1 && IsDowngrade(s5, 6) && s5.downgradeSince.None?;
    var es := [Prepare(5, 0, 0), Prepare(6, 0, 0), Execute(5), Prepare(7, 1, 0), Execute(7)];
    assert Run(s0, es) == Run(s1, es[1..]) == Run(s2, es[1..][1..]) == Run(s3, es[1..][1..][1..]);
    assert Run(s3, es[1..][1..][1..]) == Run(s4, [Execute(7)]);
    assert [Execute(7)][1..] == [];
    assert Run(s4, [Execute(7)]) == Run(s5, []);
  }
}
