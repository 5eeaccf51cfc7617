/** The durable state of one review run and the primitive writes that change it.

    A run directory is a set of artifacts plus an append-only journal.  Bytes are kept
    abstract: a JSON file is a document in some serialization (style 0 is the canonical
    one), a rendered page is a function of its packet, and everything else is junk.  A
    SHA-256 digest is the constructor `Sha256`, which makes it injective. */
module RunDisk {
  import opened Options

  datatype Hash = Sha256(of: Bytes)

  datatype Bytes =
    | Json(doc: Doc, style: nat)
    | Page(packet: Doc)
    | Junk(noise: nat)

  /** JSON documents.  Anything submitted from outside may be any of these. */
  datatype Doc =
    | Opaque(id: nat)
    | TrackBBundle(trackA: Doc)
    | TrackBAction
    | ValidatedA(trackADigest: Hash)
    | ValidatedB(bundleDigest: Hash, trackBDigest: Hash)
    | RunManifest(bundleHash: Hash, trackAHash: Hash, trackBHash: Hash, confidenceHash: Hash)

  function Canonical(doc: Doc): Bytes { Json(doc, 0) }

  function Parse(bytes: Bytes): Option<Doc> {
    if bytes.Json? then Some(bytes.doc) else None
  }

  datatype Name =
    | Request | BundleA | Confidence | Query | ActionA
    | TrackA | BundleB | ActionB | ValidationA
    | TrackB | ValidationB
    | Manifest | Packet | Html

  datatype State =
    | Received | ClassifyingInputs | ReadyToEvaluate | RetrievingEvidence
    | RunningMath | RunningRules | WaitingTrackA
    | WaitingTrackB | Finalizing | ReadyForReview

  /** The only order in which a run visits its states. */
  const WORD: seq<State> := [
    Received, ClassifyingInputs, ReadyToEvaluate, RetrievingEvidence,
    RunningMath, RunningRules, WaitingTrackA,
    WaitingTrackB, Finalizing, ReadyForReview]

  datatype Event = Event(sequence: nat, previous: Option<State>, next: State, payload: Hash)

  /** The stages a run measures; each measurement is one metric event file. */
  datatype Stage =
    | Normalization | Retrieval | RequestBuild | Preparation
    | WaitA | ValidateA | WaitB | ValidateB
    | Finalizer | ViewModel | PageImages | HtmlWrite

  /** `tornTail` says that a journal file was created but its bytes were not all written:
      loading such a journal raises.  `tornMetrics` says the same of a metric event, and
      `stages` names the stages that have a complete one. */
  datatype Disk = Disk(made: bool, files: map<Name, Bytes>, journal: seq<Event>, tornTail: bool,
                       stages: set<Stage>, tornMetrics: bool) {
    function ParsedFile(name: Name): Option<Doc> {
      if name in files then Parse(files[name]) else None
    }
  }

  const EMPTY_DISK: Disk := Disk(false, map[], [], false, {}, false)

  datatype Action =
    | MakeDirectory
    | Write(name: Name, bytes: Bytes)
    | Unlink(gone: Name)
    | Append(event: Event)
    | Measure(stage: Stage)

  function Perform(d: Disk, a: Action): Disk {
    match a
    case MakeDirectory => d.(made := true)
    case Write(name, bytes) => d.(files := d.files[name := bytes])
    case Unlink(name) => d.(files := d.files - {name})
    case Append(event) => d.(journal := d.journal + [event])
    case Measure(stage) => d.(stages := d.stages + {stage})
  }

  /** What is left when the process dies inside `a`: a file holding arbitrary unparsable
      bytes, or a journal or a set of metric events that no longer loads. */
  function Tear(d: Disk, a: Action, noise: nat): Disk {
    match a
    case MakeDirectory => d
    case Write(name, _) => d.(files := d.files[name := Junk(noise)])
    case Unlink(_) => d
    case Append(_) => d.(tornTail := true)
    case Measure(_) => d.(tornMetrics := true)
  }

  function Replay(d: Disk, actions: seq<Action>): Disk
    decreases |actions|
  {
    if actions == [] then d else Replay(Perform(d, actions[0]), actions[1..])
  }

  /** The disk after a process that wanted to perform `actions` completed only the first
      `cut` of them, possibly dying inside the next one. */
  function Crash(d: Disk, actions: seq<Action>, cut: nat, tear: Option<nat>): Disk {
    if cut >= |actions| then Replay(d, actions)
    else
      var reached := Replay(d, actions[..cut]);
      if tear.Some? then Tear(reached, actions[cut], tear.value) else reached
  }

  lemma {:induction false} ReplayConcat(d: Disk, first: seq<Action>, second: seq<Action>)
    ensures Replay(d, first + second) == Replay(Replay(d, first), second)
    decreases |first|
  {
    if first == [] {
      assert first + second == second;
    } else {
      assert (first + second)[1..] == first[1..] + second;
      ReplayConcat(Perform(d, first[0]), first[1..], second);
    }
  }

  lemma {:induction false} ReplayOne(d: Disk, a: Action)
    ensures Replay(d, [a]) == Perform(d, a)
  {
    assert [a][1..] == [];
    assert Replay(Perform(d, a), []) == Perform(d, a);
  }

  lemma {:induction false} ReplaySnoc(d: Disk, actions: seq<Action>, a: Action)
    ensures Replay(d, actions + [a]) == Perform(Replay(d, actions), a)
  {
    ReplayConcat(d, actions, [a]);
    ReplayOne(Replay(d, actions), a);
  }
}
