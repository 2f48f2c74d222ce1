/** The trust store: which identity this device has, whom it trusts, and what survives failed writes,
    crashes and restarts. */
module Store {
  import opened Base
  import Clipboard

  const SCHEMA_VERSION: nat := 2

  datatype Backing = Software | Hardware

  datatype LockPolicy = Full | AppOnly | Suppress

  datatype NotificationPolicy = NotificationPolicy(allowMirror: bool, whenLocked: LockPolicy, allowDismissSync: bool)

  const CLIPBOARD_DENIED: Clipboard.Policy := Clipboard.Policy(false, false, false, false)
  const NOTIFICATIONS_DENIED: NotificationPolicy := NotificationPolicy(false, Suppress, false)

  datatype Peer = Peer(
    fingerprint: Fingerprint,
    deviceId: string,
    deviceName: string,
    platform: int,
    pairedAt: int,
    granted: map<string, bool>,
    lastVersion: nat,
    revoked: bool,
    hidden: bool,
    clipboard: Clipboard.Policy,
    notifications: NotificationPolicy)
  {
    predicate Allows(capability: string) {
      !revoked && capability in granted && granted[capability]
    }

    /** The record reduced to the revocation itself. */
    function Tombstone(): Peer {
      Peer(fingerprint, "", "", 0, 0, map[], 0, true, true, CLIPBOARD_DENIED, NOTIFICATIONS_DENIED)
    }

    function Revoked(): Peer {
      this.(revoked := true, granted := map[], clipboard := CLIPBOARD_DENIED, notifications := NOTIFICATIONS_DENIED)
    }
  }

  type Peers = map<Fingerprint, Peer>

  datatype Identity = Identity(deviceId: string, certificate: Bytes, backing: Backing)

  /** The state document as it reads back: the certificate is `None` when its text is not base64. */
  datatype Document = Document(schema: nat, deviceId: string, certificate: Option<Bytes>, backing: Backing,
    peers: seq<Peer>)

  datatype StateFile = Parsed(doc: Document) | Unparseable(bytes: Bytes)

  datatype Disk = Disk(state: Option<StateFile>, secret: Option<Bytes>)

  // ---- Opening ----

  datatype AccessError = PermissionDenied | NotPrivate | Io | CorruptedItem

  datatype Trouble = Corrupted | Lost | HardwareUnavailable | TemporarilyUnavailable

  datatype Resolution = Create | Load(doc: Document, secret: Bytes) | Refuse(why: Trouble)

  function RefuseAccess(e: AccessError): Resolution {
    match e
    case NotPrivate => Refuse(Corrupted)
    case PermissionDenied => Refuse(Lost)
    case Io => Refuse(TemporarilyUnavailable)
    case CorruptedItem => Refuse(Corrupted)
  }

  function Classify(state: Result<Option<StateFile>, AccessError>, secret: Result<Option<Bytes>, AccessError>,
                    backing: Backing): Resolution {
    if state.Err? then RefuseAccess(state.error)
    else if secret.Err? then RefuseAccess(secret.error)
    else
      match (state.value, secret.value)
      case (None, None) => Create
      case (Some(_), None) => Refuse(Lost)
      case (None, Some(_)) => Refuse(Lost)
      case (Some(file), Some(key)) =>
        if file.Unparseable? then Refuse(Corrupted)
        else if file.doc.schema > SCHEMA_VERSION then Refuse(Corrupted)
        else if file.doc.backing != backing then Refuse(HardwareUnavailable)
        else if file.doc.certificate.None? then Refuse(Corrupted)
        else Load(file.doc, key)
  }

  /** What a read may report: the item as it is, or any error at all; never an absence that is not real. */
  ghost predicate Reads<T>(actual: Option<T>, reported: Result<Option<T>, AccessError>) {
    reported.Ok? ==> reported.value == actual
  }

  /** A key may be made exactly when both reads positively report that nothing is there. */
  lemma OnlyAbsenceCreates(disk: Disk, state: Result<Option<StateFile>, AccessError>, secret: Result<Option<Bytes>,
                           AccessError>, backing: Backing)
    requires Reads(disk.state, state) && Reads(disk.secret, secret)
    ensures Classify(state, secret, backing).Create? <==> state == Ok(None) && secret == Ok(None)
    ensures Classify(state, secret, backing).Create? ==> disk == Disk(None, None)
    ensures Classify(state, secret, backing).Load? ==>
              disk == Disk(Some(Parsed(Classify(state, secret, backing).doc)),
                Some(Classify(state, secret, backing).secret))
  {
  }

  /** Reading the peers back: the last record of a key wins, and a hidden record is revoked whatever
      the file says. */
  function LoadPeers(records: seq<Peer>): (peers: Peers)
    ensures forall f :: f in peers ==> peers[f].fingerprint == f && (peers[f].hidden ==> peers[f].revoked)
  {
    if records == [] then map[]
    else
      var p := records[|records| - 1];
      LoadPeers(records[..|records| - 1])[p.fingerprint := if p.hidden then p.(revoked := true) else p]
  }

  /** The records of a peer map, each once. */
  ghost function Records(peers: Peers): seq<Peer>
    decreases |peers|
  {
    if peers == map[] then []
    else
      var f :| f in peers;
      assert |peers - {f}| == |peers| - 1 by { assert (peers - {f}).Keys == peers.Keys - {f}; }
      Records(peers - {f}) + [peers[f]]
  }

  ghost predicate Keyed(peers: Peers) {
    forall f :: f in peers ==> peers[f].fingerprint == f
  }

  ghost predicate HiddenAreRevoked(peers: Peers) {
    forall f :: f in peers ==> peers[f].hidden ==> peers[f].revoked
  }

  lemma {:induction false} LoadRecords(peers: Peers)
    requires Keyed(peers)
    ensures LoadPeers(Records(peers)).Keys == peers.Keys
    ensures forall f :: f in peers ==>
              LoadPeers(Records(peers))[f] == if peers[f].hidden then peers[f].(revoked := true) else peers[f]
    decreases |peers|
  {
    if peers != map[] {
      var f :| f in peers && Records(peers) == Records(peers - {f}) + [peers[f]];
      assert |peers - {f}| == |peers| - 1 by { assert (peers - {f}).Keys == peers.Keys - {f}; }
      LoadRecords(peers - {f});
      var rs := Records(peers);
      assert rs[..|rs| - 1] == Records(peers - {f});
    }
  }

  /** A restart gives back the same peer map, exactly when no record is hidden without being revoked. */
  lemma PersistLoadIsIdentity(peers: Peers)
    requires Keyed(peers)
    ensures LoadPeers(Records(peers)) == peers <==> HiddenAreRevoked(peers)
  {
    LoadRecords(peers);
    if HiddenAreRevoked(peers) {
      assert LoadPeers(Records(peers)) == peers;
    } else {
      var f :| f in peers && peers[f].hidden && !peers[f].revoked;
      assert LoadPeers(Records(peers))[f].revoked;
    }
  }

  // ---- Editing ----

  datatype Edit =
    | AddPeer(peer: Peer)
    | RevokePeer(fp: Fingerprint)
    | HidePeer(fp: Fingerprint)
    | HideAll
    | SetGrant(fp: Fingerprint, capability: string, granted: bool)
    | SetClipboard(fp: Fingerprint, clipboard: Clipboard.Policy)
    | SetNotifications(fp: Fingerprint, notifications: NotificationPolicy)
    | RecordVersion(fp: Fingerprint, version: nat)

  predicate RevokedAndListed(peers: Peers, f: Fingerprint) {
    f in peers && peers[f].revoked && !peers[f].hidden
  }

  /** Every revoked, listed record reduced to its tombstone; every other record as it was. */
  function HideEvery(peers: Peers): Peers {
    map f | f in peers :: if RevokedAndListed(peers, f) then peers[f].Tombstone() else peers[f]
  }

  function HideOne(peers: Peers, f: Fingerprint): Peers {
    if RevokedAndListed(peers, f) then peers[f := peers[f].Tombstone()] else peers
  }

  /** The peer map an edit asks for. */
  function Edited(peers: Peers, e: Edit): Peers {
    match e
    case AddPeer(p) => peers[p.fingerprint := p]
    case RevokePeer(f) => if f in peers then peers[f := peers[f].Revoked()] else peers
    case HidePeer(f) => HideOne(peers, f)
    case HideAll => HideEvery(peers)
    case SetGrant(f, c, g) => if f in peers then peers[f := peers[f].(granted := peers[f].granted[c := g])] else peers
    case SetClipboard(f, policy) => if f in peers then peers[f := peers[f].(clipboard := policy)] else peers
    case SetNotifications(f, policy) => if f in peers then peers[f := peers[f].(notifications := policy)] else peers
    case RecordVersion(f, v) =>
      if f in peers && v > peers[f].lastVersion then peers[f := peers[f].(lastVersion := v)] else peers
  }

  /** Whether the edit writes the document at all. */
  predicate Writes(peers: Peers, e: Edit) {
    match e
    case RevokePeer(f) => f in peers
    case HidePeer(f) => RevokedAndListed(peers, f)
    case HideAll => exists f :: f in peers && RevokedAndListed(peers, f)
    case _ => true
  }

  /** Only hiding goes through commit, which restores the map when the write fails. */
  predicate RollsBack(e: Edit) {
    e.HidePeer? || e.HideAll?
  }

  /** A write may reach the disk or not; it is reported as done only if it did. */
  datatype WriteFate = WriteFate(applied: bool, reported: bool)

  type Fate = w: WriteFate | w.reported ==> w.applied witness WriteFate(true, true)

  datatype Running = Running(identity: Identity, peers: Peers)

  ghost function Doc(r: Running): Document {
    Document(SCHEMA_VERSION, r.identity.deviceId, Some(r.identity.certificate), r.identity.backing, Records(r.peers))
  }

  /** The store and the disk after an edit, and whether it was reported done. */
  ghost function EditStep(r: Running, disk: Disk, e: Edit, w: Fate): (Running, Disk, bool) {
    var next := r.(peers := Edited(r.peers, e));
    if !Writes(r.peers, e) then (r, disk, true)
    else
      (if RollsBack(e) && !w.reported then r else next,
       if w.applied then disk.(state := Some(Parsed(Doc(next)))) else disk,
       w.reported)
  }

  // ---- Every run ----

  /** The process: stopped, or running with an open store. */
  datatype System = System(disk: Disk, running: Option<Running>)

  /** One attempt to start: what the two reads report, whether the directory can be secured, what key and
      certificate a new identity would get, whether an existing key loads, how the two first writes end,
      and whether the process dies between them. */
  datatype Attempt = Attempt(
    hardened: bool,
    state: Result<Option<StateFile>, AccessError>,
    secret: Result<Option<Bytes>, AccessError>,
    backing: Backing,
    created: Option<(Identity, Bytes)>,
    loads: bool,
    secretWrite: Fate,
    dies: bool,
    stateWrite: Fate)

  datatype Action = Open(attempt: Attempt) | DoEdit(edit: Edit, write: Fate) | Stop

  ghost function OpenStep(disk: Disk, a: Attempt): System {
    if !a.hardened then System(disk, None) else
    match Classify(a.state, a.secret, a.backing)
    case Refuse(_) => System(disk, None)
    case Load(doc, _) =>
      System(disk, if a.loads && doc.certificate.Some?
                   then Some(Running(Identity(doc.deviceId, doc.certificate.value, doc.backing), LoadPeers(doc.peers)))
                   else None)
    case Create =>
      if a.created.None? then System(disk, None) else
      var (identity, key) := a.created.value;
      var keyed := if a.secretWrite.applied then disk.(secret := Some(key)) else disk;
      if !a.secretWrite.reported || a.dies then System(keyed, None) else
      var r := Running(identity, map[]);
      var full := if a.stateWrite.applied then keyed.(state := Some(Parsed(Doc(r)))) else keyed;
      System(full, if a.stateWrite.reported then Some(r) else None)
  }

  ghost predicate Possible(s: System, a: Action) {
    match a
    case Open(at) => s.running.None? && Reads(s.disk.state, at.state) && Reads(s.disk.secret, at.secret)
    case DoEdit(_, _) => s.running.Some?
    case Stop => true
  }

  ghost function Act(s: System, a: Action): System {
    if !Possible(s, a) then s else
    match a
    case Open(at) => OpenStep(s.disk, at)
    case DoEdit(e, w) => var (r, disk, _) := EditStep(s.running.value, s.disk, e, w); System(disk, Some(r))
    case Stop => s.(running := None)
  }

  ghost function ActAll(disk: Disk, run: seq<Action>): System {
    if run == [] then System(disk, None) else Act(ActAll(disk, run[..|run| - 1]), run[|run| - 1])
  }

  // ---- One identity for ever ----

  /** What a disk says this device is. */
  ghost predicate SameIdentity(d: Disk, e: Disk) {
    && (d.secret.Some? ==> e.secret == d.secret)
    && (d.state.Some? ==> e.state.Some?)
    && (d.state.Some? && d.state.value.Unparseable? ==> e.state == d.state)
    && (d.state.Some? && d.state.value.Parsed? ==>
          && e.state.value.Parsed?
          && e.state.value.doc.deviceId == d.state.value.doc.deviceId
          && e.state.value.doc.certificate == d.state.value.doc.certificate
          && e.state.value.doc.backing == d.state.value.doc.backing)
  }

  /** A running store's identity is the one on disk, its key is on disk, and every peer on disk is known. */
  ghost predicate RunningMatchesDisk(s: System) {
    s.running.Some? ==>
      && s.disk.secret.Some? && s.disk.state.Some? && s.disk.state.value.Parsed?
      && var doc := s.disk.state.value.doc;
         && Identity(doc.deviceId, if doc.certificate.Some? then doc.certificate.value else [], doc.backing)
              == s.running.value.identity
         && doc.certificate.Some?
         && (forall i :: 0 <= i < |doc.peers| ==> doc.peers[i].fingerprint in s.running.value.peers)
         && Keyed(s.running.value.peers)
  }

  lemma {:induction false} LoadedKeys(records: seq<Peer>)
    ensures forall i :: 0 <= i < |records| ==> records[i].fingerprint in LoadPeers(records)
  {
    if records != [] {
      LoadedKeys(records[..|records| - 1]);
    }
  }

  lemma {:induction false} RecordsAreKnown(peers: Peers)
    requires Keyed(peers)
    ensures forall i :: 0 <= i < |Records(peers)| ==>
            Records(peers)[i].fingerprint in peers && Records(peers)[i] == peers[Records(peers)[i].fingerprint]
    decreases |peers|
  {
    if peers != map[] {
      var f :| f in peers && Records(peers) == Records(peers - {f}) + [peers[f]];
      assert |peers - {f}| == |peers| - 1 by { assert (peers - {f}).Keys == peers.Keys - {f}; }
      RecordsAreKnown(peers - {f});
    }
  }

  lemma EditKeepsKeys(peers: Peers, e: Edit)
    requires Keyed(peers)
    ensures Keyed(Edited(peers, e)) && peers.Keys <= Edited(peers, e).Keys
  {
  }

  lemma EditKeepsIdentity(s: System, e: Edit, w: Fate)
    requires s.running.Some? && RunningMatchesDisk(s)
    ensures SameIdentity(s.disk, Act(s, DoEdit(e, w)).disk)
    ensures RunningMatchesDisk(Act(s, DoEdit(e, w)))
  {
    var r := s.running.value;
    EditKeepsKeys(r.peers, e);
    RecordsAreKnown(Edited(r.peers, e));
  }

  lemma OpenKeepsIdentity(s: System, at: Attempt)
    requires Possible(s, Open(at))
    ensures SameIdentity(s.disk, Act(s, Open(at)).disk)
    ensures RunningMatchesDisk(Act(s, Open(at)))
    ensures Act(s, Open(at)).disk != s.disk ==>
            s.disk == Disk(None, None) && at.state == Ok(None) && at.secret == Ok(None)
  {
    OnlyAbsenceCreates(s.disk, at.state, at.secret, at.backing);
    var c := Classify(at.state, at.secret, at.backing);
    if c.Load? {
      LoadedKeys(c.doc.peers);
    } else if c.Create? && at.created.Some? {
      RecordsAreKnown(map[]);
    }
  }

  lemma {:induction false} RunMatchesDisk(disk: Disk, run: seq<Action>)
    ensures RunningMatchesDisk(ActAll(disk, run))
  {
    if run != [] {
      var s, a := ActAll(disk, run[..|run| - 1]), run[|run| - 1];
      RunMatchesDisk(disk, run[..|run| - 1]);
      if Possible(s, a) {
        match a
        case Open(at) => OpenKeepsIdentity(s, at);
        case DoEdit(e, w) => EditKeepsIdentity(s, e, w);
        case Stop =>
      }
    }
  }

  /** Through any run of starts with arbitrary read errors, failed writes and crashes after any write:
      whatever key material and identity the disk once holds, it holds for ever. No key is overwritten,
      no second identity appears, and every later document carries the same device id and certificate. */
  lemma {:induction false} IdentityIsForEver(disk: Disk, run: seq<Action>, n: nat)
    requires n <= |run|
    ensures SameIdentity(ActAll(disk, run[..n]).disk, ActAll(disk, run).disk)
    decreases |run|
  {
    if n == |run| {
      assert run[..n] == run;
    } else {
      var before := run[..|run| - 1];
      assert before[..n] == run[..n];
      IdentityIsForEver(disk, before, n);
      RunMatchesDisk(disk, before);
      var s, a := ActAll(disk, before), run[|run| - 1];
      if Possible(s, a) {
        match a
        case Open(at) => OpenKeepsIdentity(s, at);
        case DoEdit(e, w) => EditKeepsIdentity(s, e, w);
        case Stop =>
      }
    }
  }

  /** What is on disk was all made by one attempt: its key, and if there is a document, its identity. */
  ghost predicate MadeBy(disk: Disk, a: Attempt) {
    && a.created.Some? && disk.secret == Some(a.created.value.1)
    && (disk.state.Some? ==> && disk.state.value.Parsed?
                             && disk.state.value.doc.deviceId == a.created.value.0.deviceId
                             && disk.state.value.doc.certificate == Some(a.created.value.0.certificate)
                             && disk.state.value.doc.backing == a.created.value.0.backing)
  }

  ghost predicate MadeAt(disk: Disk, run: seq<Action>, i: nat) {
    i < |run| && run[i].Open? && MadeBy(disk, run[i].attempt)
  }

  lemma OpenOnEmpty(at: Attempt)
    requires Reads(None, at.state) && Reads(None, at.secret)
    ensures var disk := OpenStep(Disk(None, None), at).disk;
            disk == Disk(None, None) || MadeBy(disk, at)
  {
  }

  lemma StaysMade(disk: Disk, later: Disk, a: Attempt)
    requires MadeBy(disk, a) && SameIdentity(disk, later) && (disk.state.None? ==> later == disk)
    ensures MadeBy(later, a)
  {
  }

  /** From an empty disk, through any run, the key and the document on it always come from one and the same
      creation. */
  lemma {:induction false} OneCreation(run: seq<Action>)
    ensures var disk := ActAll(Disk(None, None), run).disk;
            disk == Disk(None, None) || exists i :: MadeAt(disk, run, i)
  {
    if run != [] {
      var before, a := run[..|run| - 1], run[|run| - 1];
      var s, t := ActAll(Disk(None, None), before), ActAll(Disk(None, None), run);
      OneCreation(before);
      RunMatchesDisk(Disk(None, None), before);
      if Possible(s, a) && a.Open? {
        OpenKeepsIdentity(s, a.attempt);
        if s.disk == Disk(None, None) {
          OpenOnEmpty(a.attempt);
          assert MadeBy(t.disk, a.attempt) ==> MadeAt(t.disk, run, |run| - 1);
        }
      } else if Possible(s, a) && a.DoEdit? {
        EditKeepsIdentity(s, a.edit, a.write);
      }
      if i: nat :| MadeAt(s.disk, before, i) {
        StaysMade(s.disk, t.disk, run[i].attempt);
        assert MadeAt(t.disk, run, i);
      }
    }
  }

  // ---- Revocation ----

  predicate Trusts(peers: Peers, f: Fingerprint) {
    f in peers && !peers[f].revoked
  }

  /** Neither the running store nor the document trusts `f`. */
  ghost predicate Untrusted(s: System, f: Fingerprint) {
    && (s.running.Some? ==> !Trusts(s.running.value.peers, f))
    && (s.disk.state.Some? && s.disk.state.value.Parsed? ==>
          var records := s.disk.state.value.doc.peers;
          forall i :: 0 <= i < |records| && records[i].fingerprint == f ==> records[i].revoked)
  }

  lemma {:induction false} LoadKeepsRevoked(records: seq<Peer>, f: Fingerprint)
    requires forall i :: 0 <= i < |records| && records[i].fingerprint == f ==> records[i].revoked
    ensures !Trusts(LoadPeers(records), f)
  {
    if records != [] {
      LoadKeepsRevoked(records[..|records| - 1], f);
    }
  }

  lemma EditKeepsUntrusted(peers: Peers, e: Edit, f: Fingerprint)
    requires !Trusts(peers, f) && !(e.AddPeer? && e.peer.fingerprint == f)
    ensures !Trusts(Edited(peers, e), f)
  {
  }

  lemma ActKeepsUntrusted(s: System, a: Action, f: Fingerprint)
    requires Untrusted(s, f) && RunningMatchesDisk(s)
    requires !(a.DoEdit? && a.edit.AddPeer? && a.edit.peer.fingerprint == f)
    ensures Untrusted(Act(s, a), f)
  {
    if Possible(s, a) {
      match a
      case Open(at) =>
        OnlyAbsenceCreates(s.disk, at.state, at.secret, at.backing);
        if s.disk.state.Some? && s.disk.state.value.Parsed? {
          LoadKeepsRevoked(s.disk.state.value.doc.peers, f);
        }
        RecordsAreKnown(map[]);
      case DoEdit(e, w) =>
        var next := Edited(s.running.value.peers, e);
        EditKeepsUntrusted(s.running.value.peers, e, f);
        EditKeepsKeys(s.running.value.peers, e);
        RecordsAreKnown(next);
      case Stop =>
    }
  }

  lemma RevokeMakesUntrusted(s: System, f: Fingerprint, w: Fate)
    requires s.running.Some? && RunningMatchesDisk(s)
    requires EditStep(s.running.value, s.disk, RevokePeer(f), w).2
    ensures Untrusted(Act(s, DoEdit(RevokePeer(f), w)), f)
  {
    var r := s.running.value;
    EditKeepsKeys(r.peers, RevokePeer(f));
    RecordsAreKnown(Edited(r.peers, RevokePeer(f)));
  }

  /** Once a revocation has been reported done, the key stays untrusted, with every capability denied,
      through any later edits, failed writes, crashes and restarts that do not add it again. */
  lemma {:induction false} RevocationSticks(disk: Disk, run: seq<Action>, i: nat, f: Fingerprint)
    requires i < |run|
    requires var s := ActAll(disk, run[..i]);
             exists w: Fate :: run[i] == DoEdit(RevokePeer(f), w) && s.running.Some?
               && EditStep(s.running.value, s.disk, RevokePeer(f), w).2
    requires forall k :: i < k < |run| && run[k].DoEdit? && run[k].edit.AddPeer? ==> run[k].edit.peer.fingerprint != f
    ensures var s := ActAll(disk, run);
            && Untrusted(s, f)
            && (s.running.Some? && f in s.running.value.peers ==>
                  forall capability :: !s.running.value.peers[f].Allows(capability))
    decreases |run|
  {
    var before := run[..|run| - 1];
    RunMatchesDisk(disk, before);
    var s := ActAll(disk, before);
    if i == |run| - 1 {
      RevokeMakesUntrusted(s, f, run[i].write);
    } else {
      assert before[..i] == run[..i];
      RevocationSticks(disk, before, i, f);
      ActKeepsUntrusted(s, run[|run| - 1], f);
    }
  }

  /** A clean restart from this disk. */
  ghost function Restart(disk: Disk): System {
    OpenStep(disk, Attempt(true, Ok(disk.state), Ok(disk.secret),
                           if disk.state.Some? && disk.state.value.Parsed?
                           then disk.state.value.doc.backing else Software,
                           None, true, WriteFate(true, true), false, WriteFate(true, true)))
  }

  /** A revocation that was not reported done may be undone by a restart: it survives one exactly when
      the write reached the disk. */
  lemma RevocationSurvivesRestartIffWritten(s: System, f: Fingerprint, w: Fate)
    requires s.running.Some? && RunningMatchesDisk(s)
    requires s.disk.state.value.doc.schema <= SCHEMA_VERSION
    requires Trusts(LoadPeers(s.disk.state.value.doc.peers), f)
    ensures var t := Act(s, DoEdit(RevokePeer(f), w));
            && !Trusts(t.running.value.peers, f)
            && Restart(t.disk).running.Some?
            && (!Trusts(Restart(t.disk).running.value.peers, f) <==> w.applied)
  {
    var r := s.running.value;
    assert f in r.peers by { LoadedOnly(s.disk.state.value.doc.peers, f); }
    var next := Edited(r.peers, RevokePeer(f));
    EditKeepsKeys(r.peers, RevokePeer(f));
    LoadRecords(next);
    var t := Act(s, DoEdit(RevokePeer(f), w));
    assert t.running.value.peers == next && t.disk.secret == s.disk.secret;
    RestartLoads(t.disk);
  }

  lemma RestartLoads(disk: Disk)
    requires disk.secret.Some? && disk.state.Some? && disk.state.value.Parsed?
    requires disk.state.value.doc.certificate.Some? && disk.state.value.doc.schema <= SCHEMA_VERSION
    ensures Restart(disk).running.Some? && Restart(disk).running.value.peers == LoadPeers(disk.state.value.doc.peers)
  {
  }

  lemma {:induction false} LoadedOnly(records: seq<Peer>, f: Fingerprint)
    requires f in LoadPeers(records)
    ensures exists i :: 0 <= i < |records| && records[i].fingerprint == f
  {
    var n := |records| - 1;
    if records[n].fingerprint != f {
      LoadedOnly(records[..n], f);
      var i :| 0 <= i < n && records[..n][i].fingerprint == f;
      assert records[i].fingerprint == f;
    }
  }

  // ---- Hiding ----

  /** Hidden implies revoked is kept by every edit, except exactly by adding a record that breaks it. */
  lemma HiddenStaysRevoked(peers: Peers, e: Edit)
    requires HiddenAreRevoked(peers)
    ensures HiddenAreRevoked(Edited(peers, e)) <==> (e.AddPeer? ==> e.peer.hidden ==> e.peer.revoked)
  {
    if e.AddPeer? {
      assert Edited(peers, e)[e.peer.fingerprint] == e.peer;
    }
  }

  /** The running store holds a record of this key that is hidden and not revoked. */
  ghost predicate Unsound(s: System, f: Fingerprint) {
    s.running.Some? && f in s.running.value.peers && s.running.value.peers[f].hidden
      && !s.running.value.peers[f].revoked
  }

  /** Adding a record for this key that is hidden and not revoked. */
  predicate AddsUnsound(a: Action, f: Fingerprint) {
    a.DoEdit? && a.edit.AddPeer? && a.edit.peer.fingerprint == f && a.edit.peer.hidden && !a.edit.peer.revoked
  }

  /** A restart, another record for this key, or its revocation. */
  predicate Mends(a: Action, f: Fingerprint) {
    a.Stop? || (a.DoEdit? && ((a.edit.AddPeer? && a.edit.peer.fingerprint == f) || a.edit == RevokePeer(f)))
  }

  /** Step `i` added such a record to a running store, and nothing has mended it since. */
  ghost predicate UnsoundSince(disk: Disk, run: seq<Action>, i: nat, f: Fingerprint) {
    && i < |run| && AddsUnsound(run[i], f) && ActAll(disk, run[..i]).running.Some?
    && forall k :: i < k < |run| ==> !Mends(run[k], f)
  }

  lemma ActOnUnsound(s: System, a: Action, f: Fingerprint)
    ensures Unsound(Act(s, a), f)
            <==> (s.running.Some? && AddsUnsound(a, f)) || (Unsound(s, f) && !Mends(a, f))
  {
  }

  lemma UnsoundSnoc(disk: Disk, run: seq<Action>, i: nat, f: Fingerprint)
    requires run != [] && i < |run| - 1
    ensures UnsoundSince(disk, run, i, f)
            <==> UnsoundSince(disk, run[..|run| - 1], i, f) && !Mends(run[|run| - 1], f)
  {
    var before, n := run[..|run| - 1], |run| - 1;
    assert before[..i] == run[..i] && forall k :: 0 <= k < n ==> before[k] == run[k];
    assert UnsoundSince(disk, run, i, f) ==> !Mends(run[n], f);
  }

  /** Over every run: an open store has a hidden record that is not revoked exactly when one was added to it,
      and that key has since been neither added again nor revoked, nor the store opened again. */
  lemma {:induction false} UnsoundExactly(disk: Disk, run: seq<Action>, f: Fingerprint)
    ensures Unsound(ActAll(disk, run), f) <==> exists i :: UnsoundSince(disk, run, i, f)
  {
    if run != [] {
      var before, n := run[..|run| - 1], |run| - 1;
      UnsoundExactly(disk, before, f);
      ActOnUnsound(ActAll(disk, before), run[n], f);
      forall i: nat | i < n
        ensures UnsoundSince(disk, run, i, f) <==> UnsoundSince(disk, before, i, f) && !Mends(run[n], f)
      {
        UnsoundSnoc(disk, run, i, f);
      }
      assert UnsoundSince(disk, run, n, f) <==> AddsUnsound(run[n], f) && ActAll(disk, before).running.Some?;
      assert forall i: nat :: UnsoundSince(disk, before, i, f) ==> i < n;
      assert forall i: nat :: UnsoundSince(disk, run, i, f) ==> i <= n;
    }
  }

  function HideEach(peers: Peers, order: seq<Fingerprint>): Peers {
    if order == [] then peers else HideOne(HideEach(peers, order[..|order| - 1]), order[|order| - 1])
  }

  lemma {:induction false} HideEachPointwise(peers: Peers, order: seq<Fingerprint>)
    ensures HideEach(peers, order).Keys == peers.Keys
    ensures forall f :: f in peers ==>
              HideEach(peers, order)[f]
              == if f in order && RevokedAndListed(peers, f) then peers[f].Tombstone() else peers[f]
  {
    if order != [] {
      var before := order[..|order| - 1];
      HideEachPointwise(peers, before);
      assert forall f :: f in order <==> f in before || f == order[|order| - 1];
    }
  }

  /** Hiding all at once is hiding the revoked, listed devices one by one, in any order; devices still
      trusted are untouched and every revocation stands. */
  lemma HideAllIsHideEach(peers: Peers, order: seq<Fingerprint>)
    requires forall f :: RevokedAndListed(peers, f) ==> f in order
    ensures Edited(peers, HideAll) == HideEach(peers, order)
    ensures forall f :: f in peers ==> Edited(peers, HideAll)[f].revoked == peers[f].revoked
    ensures forall f :: f in peers && !peers[f].revoked ==> Edited(peers, HideAll)[f] == peers[f]
  {
    HideEachPointwise(peers, order);
  }

  /** A hide whose write is not reported done leaves memory as it was. The disk is as it was exactly when the
      write did not reach it, or it said the same already. */
  lemma FailedHideRestores(r: Running, disk: Disk, e: Edit, w: Fate)
    requires RollsBack(e) && Writes(r.peers, e) && !w.reported
    ensures var (after, left, done) := EditStep(r, disk, e, w);
            && after == r && !done
            && (left == disk <==> !w.applied || disk.state == Some(Parsed(Doc(r.(peers := Edited(r.peers, e))))))
  {
  }

  datatype HideOutcome = Hidden | NotFound | NotRevoked | AlreadyHidden

  /** The store object. `disk` is what the platform holds. */
  class TrustStore {
    const identity: Identity
    var peers: Peers
    ghost var disk: Disk

    ghost function View(): Running
      reads this
    {
      Running(identity, peers)
    }

    constructor (identity: Identity, peers: Peers, ghost disk: Disk)
      ensures View() == Running(identity, peers) && this.disk == disk
    {
      this.identity, this.peers, this.disk := identity, peers, disk;
    }

    method Persist(w: Fate) returns (ok: bool)
      modifies `disk
      ensures ok == w.reported
      ensures disk == if w.applied then old(disk).(state := Some(Parsed(Doc(View())))) else old(disk)
    {
      if w.applied {
        disk := disk.(state := Some(Parsed(Doc(View()))));
      }
      return w.reported;
    }

    method Add(p: Peer, w: Fate) returns (ok: bool)
      modifies this
      ensures (View(), disk, ok) == EditStep(old(View()), old(disk), AddPeer(p), w)
    {
      peers := peers[p.fingerprint := p];
      ok := Persist(w);
    }

    /** `Ok(false)` when there is no such device. */
    method Revoke(f: Fingerprint, w: Fate) returns (r: Result<bool, ()>)
      modifies this
      ensures (View(), disk, r.Ok?) == EditStep(old(View()), old(disk), RevokePeer(f), w)
      ensures r.Ok? ==> r.value == (f in old(peers))
    {
      if f !in peers {
        return Ok(false);
      }
      peers := peers[f := peers[f].Revoked()];
      var ok := Persist(w);
      return if ok then Ok(true) else Err(());
    }

    method Commit(next: Peers, w: Fate) returns (ok: bool)
      modifies this
      ensures ok == w.reported
      ensures peers == if ok then next else old(peers)
      ensures disk == if w.applied then old(disk).(state := Some(Parsed(Doc(Running(identity, next))))) else old(disk)
    {
      var previous := peers;
      peers := next;
      ok := Persist(w);
      if !ok {
        peers := previous;
      }
    }

    method HideRevoked(f: Fingerprint, w: Fate) returns (r: Result<HideOutcome, ()>)
      modifies this
      ensures (View(), disk, r.Ok?) == EditStep(old(View()), old(disk), HidePeer(f), w)
      ensures r.Ok? ==> (r.value == Hidden <==> RevokedAndListed(old(peers), f))
      ensures f in old(peers) && !old(peers)[f].revoked ==> r == Ok(NotRevoked) && peers == old(peers)
    {
      if f !in peers {
        return Ok(NotFound);
      }
      if !peers[f].revoked {
        return Ok(NotRevoked);
      }
      if peers[f].hidden {
        return Ok(AlreadyHidden);
      }
      var next := (peers - {f})[f := peers[f].Tombstone()];
      assert next == HideOne(peers, f);
      var ok := Commit(next, w);
      return if ok then Ok(Hidden) else Err(());
    }

    method HideAllRevoked(w: Fate) returns (r: Result<set<Fingerprint>, ()>)
      modifies this
      ensures (View(), disk, r.Ok?) == EditStep(old(View()), old(disk), HideAll, w)
      ensures r.Ok? ==> r.value == set f | f in old(peers) && RevokedAndListed(old(peers), f)
    {
      var targets := set f | f in peers && RevokedAndListed(peers, f);
      assert forall f :: f in targets <==> RevokedAndListed(peers, f);
      if targets == {} {
        return Ok({});
      }
      var next := Tombstoned(targets);
      var ok := Commit(next, w);
      return if ok then Ok(targets) else Err(());
    }

    method Tombstoned(targets: set<Fingerprint>) returns (next: Peers)
      requires targets == set f | f in peers && RevokedAndListed(peers, f)
      ensures next == HideEvery(peers)
    {
      next := peers;
      var left := targets;
      while left != {}
        invariant left <= targets && next.Keys == peers.Keys
        invariant forall f :: f in peers ==> next[f] == if f in targets - left then peers[f].Tombstone() else peers[f]
        decreases left
      {
        var f :| f in left;
        next := next[f := next[f].Tombstone()];
        left := left - {f};
      }
    }

    method SetCapabilityGrant(f: Fingerprint, capability: string, granted: bool, w: Fate) returns (ok: bool)
      modifies this
      ensures (View(), disk, ok) == EditStep(old(View()), old(disk), SetGrant(f, capability, granted), w)
    {
      if f in peers {
        peers := peers[f := peers[f].(granted := peers[f].granted[capability := granted])];
      }
      ok := Persist(w);
    }

    method SetClipboardPolicy(f: Fingerprint, policy: Clipboard.Policy, w: Fate) returns (ok: bool)
      modifies this
      ensures (View(), disk, ok) == EditStep(old(View()), old(disk), SetClipboard(f, policy), w)
    {
      if f in peers {
        peers := peers[f := peers[f].(clipboard := policy)];
      }
      ok := Persist(w);
    }
  }
}
