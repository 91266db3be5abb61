/** The GT_EVENTS messages (internal/gtevents/builder.go and the decoding half of stream.go): what
    a commit and its geofence projections carry, the compact checkpoint embedded in a commit, and
    how recovery reads it back.

    JSON text is left out; a payload is a record with the compact keys of the wire format, most of
    them optional.  The same key means different things in different events: `a` lists the areas
    inside, or on a removal the areas before it; `g` names the area of a projection, while the
    checkpoint has its own `g`, a list of transitions. */
module Events {
  import opened Domain

  datatype Lifecycle = Unknown | Active | Removed

  datatype EventID =
    | PositionID(o: ObjectID, i: string, s: nat)
    | RegisteredID(o: ObjectID, i: string, s: nat)
    | RemovedID(o: ObjectID, i: string, s: nat)
    | EnterID(area: AreaID, o: ObjectID, i: string, s: nat)
    | ExitID(area: AreaID, o: ObjectID, i: string, s: nat)
    | BootedID(s: nat)

  datatype Subject =
    | PositionUpdated(o: ObjectID)
    | ObjectRegistered(o: ObjectID)
    | ObjectRemoved(o: ObjectID)
    | GeofenceEntered(o: ObjectID, area: AreaID)
    | GeofenceExited(o: ObjectID, area: AreaID)
    | GeoTruthBooted
  {
    /** The three subjects the recovery consumer filters on. */
    predicate IsCommit() { PositionUpdated? || ObjectRegistered? || ObjectRemoved? }

    predicate IsGeofence() { GeofenceEntered? || GeofenceExited? }
  }

  datatype CompactTransition = CompactTransition(a: AreaID, e: int)

  datatype Checkpoint = Checkpoint(l: string, p: Option<Position>, a: seq<AreaID>, g: seq<CompactTransition>)

  datatype Payload = Payload(
    e: EventID, c: string, t: nat, o: ObjectID, i: string, s: nat,
    r: Option<Region>, p: Option<Position>, d: Dims, a: seq<AreaID>,
    g: Option<AreaID>, pb: Option<Position>, cp: Option<Checkpoint>)

  datatype Msg = Msg(subject: Subject, data: Payload)

  datatype StateRecord = StateRecord(
    objectID: ObjectID, instanceID: string, commitSeq: nat, lifecycle: Lifecycle,
    region: Option<Region>, position: Option<Position>, dims: Dims,
    insideAreaIDs: seq<AreaID>, transitions: seq<Transition>, updatedAt: nat)

  datatype CommitInput = CommitInput(
    objectID: ObjectID, instanceID: string, commitSeq: nat, clientOpID: string,
    region: Option<Region>, position: Position, dims: Dims,
    hasPosition: bool, projectionPositionKnown: bool,
    insideAreaIDs: seq<AreaID>, lifecycle: Lifecycle, transitions: seq<Transition>)

  datatype CommitMessages = CommitMessages(commit: Msg, projections: seq<Msg>, checkpointState: StateRecord)

  // ---- building -----------------------------------------------------------------------------

  function BuildCommitMsgs(input: CommitInput, now: nat): Result<CommitMessages> {
    if input.instanceID == "" || input.commitSeq == 0 then Err
    else if |input.transitions| > 0 && !input.projectionPositionKnown then Err
    else
      var state := BuildCheckpointState(input, now);
      match BuildObjectCommitMsg(input, state, now)
      case Err => Err
      case Ok(commit) => Ok(CommitMessages(commit, ProjectionMsgs(input, now), state))
  }

  function BuildCheckpointState(input: CommitInput, now: nat): StateRecord {
    StateRecord(input.objectID, input.instanceID, input.commitSeq, input.lifecycle, input.region,
                if input.hasPosition then Some(input.position) else None, input.dims,
                input.insideAreaIDs, input.transitions, now)
  }

  function BuildObjectCommitMsg(input: CommitInput, state: StateRecord, now: nat): Result<Msg> {
    match CheckpointFromState(state)
    case Err => Err
    case Ok(cp) =>
      var o, i, s := input.objectID, input.instanceID, input.commitSeq;
      var bare := cp.(p := None, a := []);
      if input.lifecycle == Active then
        if input.hasPosition then
          Ok(Msg(PositionUpdated(o),
                 Payload(PositionID(o, i, s), input.clientOpID, now, o, i, s, input.region,
                         Some(input.position), input.dims, input.insideAreaIDs, None, None, Some(bare))))
        else
          Ok(Msg(ObjectRegistered(o),
                 Payload(RegisteredID(o, i, s), input.clientOpID, now, o, i, s, state.region,
                         None, input.dims, [], None, None, Some(cp))))
      else
        Ok(Msg(ObjectRemoved(o),
               Payload(RemovedID(o, i, s), input.clientOpID, now, o, i, s, input.region,
                       None, input.dims, RemovedInsideAreas(input.transitions), None,
                       if input.projectionPositionKnown then Some(input.position) else None, Some(bare))))
  }

  function CompactLifecycle(l: Lifecycle): Result<string> {
    match l case Active => Ok("a") case Removed => Ok("r") case Unknown => Err
  }

  function CheckpointFromState(state: StateRecord): Result<Checkpoint> {
    match CompactLifecycle(state.lifecycle)
    case Err => Err
    case Ok(l) => Ok(Checkpoint(l, state.position, state.insideAreaIDs, CompactTransitions(state.transitions)))
  }

  function CompactTransitions(ts: seq<Transition>): seq<CompactTransition> {
    seq(|ts|, i requires 0 <= i < |ts| => CompactTransition(ts[i].area, if ts[i].entered then 1 else 0))
  }

  function RemovedInsideAreas(ts: seq<Transition>): seq<AreaID> {
    if ts == [] then []
    else (if ts[0].entered then [] else [ts[0].area]) + RemovedInsideAreas(ts[1..])
  }

  function TransitionID(tr: Transition, o: ObjectID, i: string, s: nat): EventID {
    if tr.entered then EnterID(tr.area, o, i, s) else ExitID(tr.area, o, i, s)
  }

  function ProjectionMsg(input: CommitInput, tr: Transition, now: nat): Msg {
    var o := input.objectID;
    Msg(if tr.entered then GeofenceEntered(o, tr.area) else GeofenceExited(o, tr.area),
        Payload(TransitionID(tr, o, input.instanceID, input.commitSeq), input.clientOpID, now,
                o, input.instanceID, input.commitSeq, input.region, Some(input.position), input.dims,
                input.insideAreaIDs, Some(tr.area), None, None))
  }

  function ProjectionMsgs(input: CommitInput, now: nat): seq<Msg> {
    seq(|input.transitions|, i requires 0 <= i < |input.transitions| => ProjectionMsg(input, input.transitions[i], now))
  }

  method BuildProjectionMsgs(input: CommitInput, now: nat) returns (projections: seq<Msg>)
    ensures projections == ProjectionMsgs(input, now)
  {
    projections := [];
    for k := 0 to |input.transitions|
      invariant projections == ProjectionMsgs(input, now)[..k]
    {
      projections := projections + [ProjectionMsg(input, input.transitions[k], now)];
    }
  }

  // ---- reading back -------------------------------------------------------------------------

  /** `Ok(None)` is an event without a checkpoint. */
  function CheckpointStateFromPublicEvent(data: Payload): Result<Option<StateRecord>> {
    if data.cp.None? || data.cp.value.l == "" then Ok(None)
    else
      var cp := data.cp.value;
      match ExpandLifecycle(cp.l)
      case Err => Err
      case Ok(lifecycle) =>
        match ExpandTransitions(cp.g)
        case Err => Err
        case Ok(ts) =>
          var position := if data.p.Some? then data.p else cp.p;
          var inside := if data.a != [] then data.a else cp.a;
          var gone := lifecycle == Removed;
          Ok(Some(StateRecord(data.o, data.i, data.s, lifecycle, data.r,
                              if gone then None else position, data.d,
                              if gone then [] else inside, ts, data.t)))
  }

  function ExpandLifecycle(l: string): Result<Lifecycle> {
    if l == "a" then Ok(Active) else if l == "r" then Ok(Removed) else Err
  }

  function ExpandTransitions(ts: seq<CompactTransition>): Result<seq<Transition>> {
    if forall i :: 0 <= i < |ts| ==> ts[i].e == 0 || ts[i].e == 1
    then Ok(seq(|ts|, i requires 0 <= i < |ts| => Transition(ts[i].a, ts[i].e == 1)))
    else Err
  }

  /** The projections a recovered commit should have; `data` is its stored payload. */
  function ExpectedProjectionMsgs(state: StateRecord, data: Payload, now: nat): Result<seq<Msg>> {
    if state.transitions == [] then Ok([])
    else
      var origin := Position(0.0, 0.0, 0.0, 0.0);
      var input := CommitInput(state.objectID, state.instanceID, state.commitSeq, "", state.region, origin,
                               state.dims, false, false, state.insideAreaIDs, state.lifecycle, state.transitions);
      match state.lifecycle
      case Active =>
        if state.position.None? then Err
        else Rebuilt(input.(position := state.position.value, hasPosition := true, projectionPositionKnown := true), now)
      case Removed =>
        if data.pb.None? then Err
        else Rebuilt(input.(position := data.pb.value, dims := data.d, projectionPositionKnown := true,
                            region := if data.r.Some? then data.r else input.region), now)
      case Unknown => Err
  }

  function Rebuilt(input: CommitInput, now: nat): Result<seq<Msg>> {
    match BuildCommitMsgs(input, now)
    case Err => Err
    case Ok(m) => Ok(m.projections)
  }

  // ---- what survives the round trip -----------------------------------------------------------

  /** The part of a state that a removal does not keep. */
  function Kept(state: StateRecord): StateRecord {
    if state.lifecycle == Removed then state.(position := None, insideAreaIDs := []) else state
  }

  lemma TransitionsRoundTrip(ts: seq<Transition>)
    ensures ExpandTransitions(CompactTransitions(ts)) == Ok(ts)
  {
    var back := ExpandTransitions(CompactTransitions(ts)).value;
    assert back == ts;
  }

  /** Recovery reads from every built commit exactly the state it was built with. */
  lemma CheckpointRoundTrip(input: CommitInput, now: nat)
    requires BuildCommitMsgs(input, now).Ok?
    ensures var m := BuildCommitMsgs(input, now).value;
            CheckpointStateFromPublicEvent(m.commit.data) == Ok(Some(Kept(m.checkpointState)))
  {
    TransitionsRoundTrip(input.transitions);
  }

  /** A message with its time and client operation replaced: all that repair does not restore. */
  function Restamped(m: Msg, now: nat): Msg {
    m.(data := m.data.(t := now, c := ""))
  }

  function AllRestamped(ms: seq<Msg>, now: nat): seq<Msg> {
    seq(|ms|, i requires 0 <= i < |ms| => Restamped(ms[i], now))
  }

  /** What the dispatcher never violates: a commit with transitions that is not a removal has a
      position, and a removal lists no areas as inside. */
  predicate Repairable(input: CommitInput) {
    input.transitions == [] ||
    (if input.lifecycle == Active then input.hasPosition else input.insideAreaIDs == [])
  }

  /** Main result on repair: the projections derived from the stored checkpoint are the original
      ones up to time and client operation, exactly for the repairable inputs. */
  lemma RepairRebuildsProjections(input: CommitInput, now: nat, later: nat)
    requires BuildCommitMsgs(input, now).Ok?
    ensures var m := BuildCommitMsgs(input, now).value;
            ExpectedProjectionMsgs(Kept(m.checkpointState), m.commit.data, later)
              == Ok(AllRestamped(m.projections, later))
            <==> Repairable(input)
  {
    var m := BuildCommitMsgs(input, now).value;
    var expected := ExpectedProjectionMsgs(Kept(m.checkpointState), m.commit.data, later);
    if input.transitions == [] {
      assert AllRestamped(m.projections, later) == [];
    } else if expected.Ok? {
      assert expected.value[0].data.a == if input.lifecycle == Active then input.insideAreaIDs else [];
      assert AllRestamped(m.projections, later)[0].data.a == input.insideAreaIDs;
      if Repairable(input) {
        assert expected.value == AllRestamped(m.projections, later);
      }
    }
  }

  /** Two projections of one commit have the same event id only for the same transition. */
  lemma ProjectionIds(input: CommitInput, now: nat)
    ensures var ps := ProjectionMsgs(input, now);
            && |ps| == |input.transitions|
            && forall k :: 0 <= k < |ps| ==>
                 && ps[k].data.e == TransitionID(input.transitions[k], input.objectID, input.instanceID, input.commitSeq)
                 && ps[k].subject.IsGeofence() && ps[k].data.o == input.objectID
  {}
}
