/** What holds over every run of the clipboard managers: one write per event, and no echo between any
    number of devices. */
module ClipboardRuns {
  import opened Base
  import opened Dedup
  import opened Clipboard

  // ---- One device: every admitted event is written at most once ----

  datatype Call =
    | In(peer: Fingerprint, peerDeviceId: string, update: Update, policy: Policy, writeOk: bool, now: Time)
    | ByHand(peer: Fingerprint, policy: Policy, writeOk: bool, now: Time)
    | List(now: Time)
    | Change(text: Option<Bytes>, peers: seq<Fingerprint>, reachable: set<Fingerprint>, now: Time)
    | Leave(peer: Fingerprint)

  /** One successful write to the system clipboard: for which admitted event, when, under which policy,
      and since when the clip had been held if it was applied by hand. */
  datatype Written = Written(event: nat, at: Time, heldSince: Option<Time>, policy: Policy)

  /** A manager with its record: when each event was admitted, which of them each held clip is, and
      every write. */
  datatype Record = Record(m: Manager, admitted: seq<Time>, held: map<Fingerprint, nat>, writes: seq<Written>)

  function Restrict(held: map<Fingerprint, nat>, m: Manager): map<Fingerprint, nat> {
    map p | p in held && p in m.pending :: held[p]
  }

  /** The record after an update was handled with that outcome. */
  function Noted(r: Record, m: Manager, peer: Fingerprint, policy: Policy, outcome: Outcome, now: Time): Record {
    if outcome.Applied? || outcome.Failed? || outcome.PendingUser? then
      Record(m, r.admitted + [now],
             if outcome.PendingUser? then r.held[peer := |r.admitted|] else r.held,
             if outcome.Applied? then r.writes + [Written(|r.admitted|, now, None, policy)] else r.writes)
    else r.(m := m)
  }

  /** The record after held clips were dropped, one of them perhaps because it was written. */
  function Dropped(r: Record, m: Manager, written: Option<Fingerprint>, policy: Policy, now: Time): Record {
    Record(m, r.admitted, Restrict(r.held, m),
           if written.Some? && written.value in r.held && written.value in r.m.pending
           then r.writes + [Written(r.held[written.value], now, Some(r.m.pending[written.value].receivedAt), policy)]
           else r.writes)
  }

  const NO_POLICY: Policy := Policy(false, false, false, false)

  function Do(hash: ContentHash, r: Record, c: Call): Record {
    match c
    case In(peer, peerDeviceId, u, policy, writeOk, now) =>
      var (m, outcome, _) := Receive(r.m, hash, peer, peerDeviceId, u, policy, writeOk, now);
      Noted(r, m, peer, policy, outcome, now)
    case ByHand(peer, policy, writeOk, now) =>
      var (m, result) := ApplyHeld(r.m, hash, peer, policy, writeOk, now);
      Dropped(r, m, if result.Ok? then Some(peer) else None, policy, now)
    case List(now) => Dropped(r, ListPending(r.m, now), None, NO_POLICY, now)
    case Change(text, peers, reachable, now) => r.(m := LocalChange(r.m, hash, text, peers, reachable, now).0)
    case Leave(peer) => Dropped(r, Detach(r.m, peer), None, NO_POLICY, 0)
  }

  ghost function DoAll(hash: ContentHash, run: seq<Call>): Record {
    if run == [] then Record(Manager([], [], map[]), [], map[], [])
    else Do(hash, DoAll(hash, run[..|run| - 1]), run[|run| - 1])
  }

  /** Allowed at that moment; by itself only under automatic receiving; by hand only while the clip was
      younger than the limit, counted from the event's own admission. */
  ghost predicate WriteOk(w: Written, admitted: seq<Time>) {
    && w.event < |admitted|
    && w.policy.allowReceive
    && (w.heldSince.None? ==> w.policy.MayAutoReceive() && w.at == admitted[w.event])
    && (w.heldSince.Some? ==> w.heldSince.value == admitted[w.event]
                              && (if w.at < admitted[w.event] then 0 else w.at - admitted[w.event]) < PENDING_CLIP_TTL)
  }

  ghost predicate HeldOk(r: Record) {
    && r.held.Keys == r.m.pending.Keys
    && (forall p :: p in r.held ==> r.held[p] < |r.admitted| && r.m.pending[p].receivedAt == r.admitted[r.held[p]])
    && (forall p, q :: p in r.held && q in r.held && r.held[p] == r.held[q] ==> p == q)
  }

  ghost predicate WritesOk(r: Record) {
    && (forall i :: 0 <= i < |r.writes| ==> WriteOk(r.writes[i], r.admitted))
    && (forall i, j :: 0 <= i < j < |r.writes| ==> r.writes[i].event != r.writes[j].event)
    && (forall i, p :: 0 <= i < |r.writes| && p in r.held ==> r.writes[i].event != r.held[p])
  }

  ghost predicate RecordOk(r: Record) {
    HeldOk(r) && WritesOk(r)
  }

  lemma ReceiveFacts(m: Manager, hash: ContentHash, peer: Fingerprint, peerDeviceId: string, u: Update, policy: Policy,
                     writeOk: bool, now: Time)
    ensures var (t, outcome, wrote) := Receive(m, hash, peer, peerDeviceId, u, policy, writeOk, now);
            && (wrote <==> outcome.Applied?)
            && (outcome.Applied? || outcome.Failed? ==> policy.MayAutoReceive())
            && (if outcome.PendingUser?
                then policy.allowReceive && t.pending.Keys == m.pending.Keys + {peer}
                  && t.pending[peer].receivedAt == now
                     && forall p :: p in m.pending && p != peer ==> t.pending[p] == m.pending[p]
                else t.pending == m.pending)
  {
  }

  lemma ApplyHeldFacts(m: Manager, hash: ContentHash, peer: Fingerprint, policy: Policy, writeOk: bool, now: Time)
    ensures var (t, result) := ApplyHeld(m, hash, peer, policy, writeOk, now);
            && (forall p :: p in t.pending ==> p in m.pending && t.pending[p] == m.pending[p])
            && (result.Ok? ==> policy.allowReceive && peer !in t.pending)
            && (result.Ok? ==> peer in m.pending && StillHeld(m.pending[peer], now))
  {
  }

  lemma NotedKeepsHeld(r: Record, m: Manager, peer: Fingerprint, policy: Policy, outcome: Outcome, now: Time)
    requires HeldOk(r)
    requires if outcome.PendingUser?
             then m.pending.Keys == r.m.pending.Keys + {peer} && m.pending[peer].receivedAt == now
                  && forall p :: p in r.m.pending && p != peer ==> m.pending[p] == r.m.pending[p]
             else m.pending == r.m.pending
    ensures HeldOk(Noted(r, m, peer, policy, outcome, now))
  {
    var t := Noted(r, m, peer, policy, outcome, now);
    if outcome.PendingUser? {
      HeldGrows(r, m, peer, now, t.writes);
    } else {
      HeldStays(r, m, t.admitted, t.writes);
    }
  }

  lemma HeldStays(r: Record, m: Manager, admitted: seq<Time>, writes: seq<Written>)
    requires HeldOk(r) && m.pending == r.m.pending && r.admitted <= admitted
    ensures HeldOk(Record(m, admitted, r.held, writes))
  {
    assert forall i :: 0 <= i < |r.admitted| ==> admitted[i] == r.admitted[i];
  }

  lemma HeldGrows(r: Record, m: Manager, peer: Fingerprint, now: Time, writes: seq<Written>)
    requires HeldOk(r) && m.pending.Keys == r.m.pending.Keys + {peer} && m.pending[peer].receivedAt == now
    requires forall p :: p in r.m.pending && p != peer ==> m.pending[p] == r.m.pending[p]
    ensures HeldOk(Record(m, r.admitted + [now], r.held[peer := |r.admitted|], writes))
  {
    var held := r.held[peer := |r.admitted|];
    assert held.Keys == m.pending.Keys;
    forall p | p in held
      ensures held[p] <= |r.admitted| && m.pending[p].receivedAt == (r.admitted + [now])[held[p]]
    {
      if p != peer {
        assert p in r.held && p in r.m.pending;
      }
    }
    HeldApart(r.held, peer, |r.admitted|);
  }

  lemma HeldApart(held: map<Fingerprint, nat>, peer: Fingerprint, n: nat)
    requires forall p :: p in held ==> held[p] < n
    requires forall p, q :: p in held && q in held && held[p] == held[q] ==> p == q
    ensures var after := held[peer := n];
            forall p, q :: p in after && q in after && after[p] == after[q] ==> p == q
  {
  }

  lemma NotedKeepsWrites(r: Record, m: Manager, peer: Fingerprint, policy: Policy, outcome: Outcome, now: Time)
    requires RecordOk(r) && (outcome.Applied? ==> policy.MayAutoReceive())
    ensures WritesOk(Noted(r, m, peer, policy, outcome, now))
  {
    var t := Noted(r, m, peer, policy, outcome, now);
    forall i | 0 <= i < |t.writes| ensures WriteOk(t.writes[i], t.admitted) {
      if i < |r.writes| { assert WriteOk(r.writes[i], r.admitted); }
    }
  }

  lemma DroppedKeepsRecord(r: Record, m: Manager, written: Option<Fingerprint>, policy: Policy, now: Time)
    requires RecordOk(r)
    requires forall p :: p in m.pending ==> p in r.m.pending && m.pending[p] == r.m.pending[p]
    requires written.Some? ==>
               && policy.allowReceive && written.value in r.m.pending
               && StillHeld(r.m.pending[written.value], now) && written.value !in m.pending
    ensures RecordOk(Dropped(r, m, written, policy, now))
  {
    var t := Dropped(r, m, written, policy, now);
    assert forall p :: p in t.held ==> p in r.held && t.held[p] == r.held[p];
    if written.Some? {
      var w := t.writes[|r.writes|];
      assert WriteOk(w, t.admitted);
    }
  }

  lemma DoKeepsRecord(hash: ContentHash, r: Record, c: Call)
    requires RecordOk(r)
    ensures RecordOk(Do(hash, r, c))
  {
    match c
    case In(peer, peerDeviceId, u, policy, writeOk, now) =>
      ReceiveFacts(r.m, hash, peer, peerDeviceId, u, policy, writeOk, now);
      var (m, outcome, _) := Receive(r.m, hash, peer, peerDeviceId, u, policy, writeOk, now);
      NotedKeepsHeld(r, m, peer, policy, outcome, now);
      NotedKeepsWrites(r, m, peer, policy, outcome, now);
    case ByHand(peer, policy, writeOk, now) =>
      ApplyHeldFacts(r.m, hash, peer, policy, writeOk, now);
      var (m, result) := ApplyHeld(r.m, hash, peer, policy, writeOk, now);
      DroppedKeepsRecord(r, m, if result.Ok? then Some(peer) else None, policy, now);
    case List(now) => DroppedKeepsRecord(r, ListPending(r.m, now), None, NO_POLICY, now);
    case Change(_, _, _, _) =>
    case Leave(peer) => DroppedKeepsRecord(r, Detach(r.m, peer), None, NO_POLICY, 0);
  }

  /** In any run of calls: no admitted event is ever written twice; every write was allowed by the
      policy in force at that moment (automatic receiving, unless a person applied it); and a held clip
      is never applied once its age, counted from its admission, reaches the limit, however often
      applying it was retried. */
  lemma {:induction false} OneWritePerEvent(hash: ContentHash, run: seq<Call>)
    ensures var r := DoAll(hash, run);
            && (forall i, j :: 0 <= i < j < |r.writes| ==> r.writes[i].event != r.writes[j].event)
            && (forall i :: 0 <= i < |r.writes| ==> WriteOk(r.writes[i], r.admitted))
            && RecordOk(r)
  {
    if run != [] {
      OneWritePerEvent(hash, run[..|run| - 1]);
      DoKeepsRecord(hash, DoAll(hash, run[..|run| - 1]), run[|run| - 1]);
    }
  }

  // ---- Any number of devices: no echo, no relay, no swallowed copy ----

  /** Whether a clipboard change is still to be noticed, and who caused it: the user, by the copy of that
      number, or a peer's clip. `marked` is when the newest mark for that clip was armed: when it was
      written, or when a later write of the same text failed while a mark for it was live. */
  datatype Signal = Quiet | ByUser(copy: nat) | ByPeer(marked: Time)

  /** `clean` says that no peer's clip was ever left unread on this device. */
  datatype Device = Device(m: Manager, clipboard: Bytes, signal: Signal, clean: bool)

  /** Why an update was sent: a user's copy, or a peer's clip noticed only after the suppression time. */
  datatype Cause = OfCopy(copy: nat) | LateClip(clip: nat)

  datatype Sent = Sent(from: nat, to: Fingerprint, cause: Cause)

  /** All devices, which device made each user copy, which copies have been noticed, which device noticed
      each clip that was late, and every update sent because a clipboard changed. */
  datatype Net = Net(now: Time, devices: map<nat, Device>, copies: seq<nat>, noticed: set<nat>, late: seq<nat>,
                     sent: seq<Sent>)

  /** What can happen. Updates that arrive are arbitrary: from any device, repeated, reordered or forged.
      `read` says whether the clipboard could be read when its change was noticed. */
  datatype Happening =
    | Pass(elapsed: Time)
    | Copy(device: nat, text: Bytes)
    | Arrive(device: nat, peer: Fingerprint, peerDeviceId: string, update: Update, policy: Policy, writeOk: bool)
    | Accept(device: nat, peer: Fingerprint, policy: Policy, writeOk: bool)
    | Notice(device: nat, autoSendPeers: seq<Fingerprint>, reachable: set<Fingerprint>, read: bool)
    | Forget(device: nat, peer: Fingerprint)

  /** The assumption on the platform: a clipboard write raises one signal, and that signal is handled
      before the next write on the same device. How long that takes is left open. */
  ghost predicate Allowed(hash: ContentHash, n: Net, h: Happening) {
    match h
    case Pass(_) => true
    case Copy(d, _) => d in n.devices && n.devices[d].signal.Quiet?
    case Arrive(d, peer, peerDeviceId, u, policy, writeOk) =>
      d in n.devices && (Receive(n.devices[d].m, hash, peer, peerDeviceId, u, policy, writeOk, n.now).2 ==>
        n.devices[d].signal.Quiet?)
    case Accept(d, peer, policy, writeOk) =>
      d in n.devices && (ApplyHeld(n.devices[d].m, hash, peer, policy, writeOk, n.now).1.Ok? ==>
        n.devices[d].signal.Quiet?)
    case Notice(d, peers, _, _) => d in n.devices && !n.devices[d].signal.Quiet? && Distinct(peers)
    case Forget(d, _) => d in n.devices
  }

  /** The signal after a write of `text` failed. */
  ghost function Remarked(hash: ContentHash, d: Device, text: Bytes, now: Time): Signal {
    if d.signal.ByPeer? && hash(text) == hash(d.clipboard)
      && InTime(d.signal.marked, now) then ByPeer(now) else d.signal
  }

  predicate InTime(marked: Time, now: Time) {
    now - marked < SUPPRESSION_TTL
  }

  ghost function Messages(from: nat, cause: Cause, to: seq<Fingerprint>): (ms: seq<Sent>)
    ensures |ms| == |to| && forall i :: 0 <= i < |ms| ==> ms[i] == Sent(from, to[i], cause)
  {
    seq(|to|, i requires 0 <= i < |to| => Sent(from, to[i], cause))
  }

  /** What the handler reads: nothing when reading fails or the clipboard is not text that can be carried. */
  ghost function Readable(d: Device, read: bool): Option<Bytes> {
    if read && ValidText(d.clipboard) then Some(d.clipboard) else None
  }

  ghost function Handled(hash: ContentHash, d: Device, autoSendPeers: seq<Fingerprint>, reachable: set<Fingerprint>,
                         read: bool, now: Time)
    : (Manager, seq<Fingerprint>)
  {
    LocalChange(d.m, hash, Readable(d, read), autoSendPeers, reachable, now)
  }

  ghost function Arrived(hash: ContentHash, d: Device, peer: Fingerprint, peerDeviceId: string, u: Update,
                         policy: Policy, writeOk: bool, now: Time): Device {
    var (m, outcome, wrote) := Receive(d.m, hash, peer, peerDeviceId, u, policy, writeOk, now);
    if wrote then Device(m, u.text, ByPeer(now), d.clean)
    else d.(m := m, signal := if outcome.Failed? then Remarked(hash, d, u.text, now) else d.signal)
  }

  ghost function Accepted(hash: ContentHash, d: Device, peer: Fingerprint, policy: Policy, writeOk: bool,
                          now: Time): Device {
    var (m, result) := ApplyHeld(d.m, hash, peer, policy, writeOk, now);
    if result.Ok? then Device(m, d.m.pending[peer].text, ByPeer(now), d.clean)
    else d.(m := m, signal := if result == Err(Backend) then Remarked(hash, d, d.m.pending[peer].text, now)
      else d.signal)
  }

  ghost function Quieted(d: Device, m: Manager, read: bool): Device {
    d.(m := m, signal := Quiet, clean := d.clean && (d.signal.ByPeer? ==> read))
  }

  ghost function Happen(hash: ContentHash, n: Net, h: Happening): Net {
    if !Allowed(hash, n, h) then n else
    match h
    case Pass(elapsed) => n.(now := n.now + elapsed)
    case Copy(d, text) =>
      n.(devices := n.devices[d := n.devices[d].(clipboard := text, signal := ByUser(|n.copies|))], copies := n.copies
        + [d])
    case Arrive(d, peer, peerDeviceId, u, policy, writeOk) =>
      n.(devices := n.devices[d := Arrived(hash, n.devices[d], peer, peerDeviceId, u, policy, writeOk, n.now)])
    case Accept(d, peer, policy, writeOk) =>
      n.(devices := n.devices[d := Accepted(hash, n.devices[d], peer, policy, writeOk, n.now)])
    case Notice(d, peers, reachable, read) =>
      var (m, to) := Handled(hash, n.devices[d], peers, reachable, read, n.now);
      Announced(n, d, Quieted(n.devices[d], m, read), to)
    case Forget(d, peer) => n.(devices := n.devices[d := n.devices[d].(m := Detach(n.devices[d].m, peer))])
  }

  /** The network after device `d` handled its signal, became `after`, and sent to `to`. */
  ghost function Announced(n: Net, d: nat, after: Device, to: seq<Fingerprint>): Net
    requires d in n.devices
  {
    var signal := n.devices[d].signal;
    var cause := if signal.ByUser? then OfCopy(signal.copy) else LateClip(|n.late|);
    n.(devices := n.devices[d := after],
       noticed := if signal.ByUser? then n.noticed + {signal.copy} else n.noticed,
       late := n.late + (if signal.ByPeer? && !InTime(signal.marked, n.now) then [d] else []),
       sent := n.sent + Messages(d, cause, to))
  }

  ghost function HappenAll(hash: ContentHash, devices: set<nat>, run: seq<Happening>): Net {
    if run == [] then Net(0, map d | d in devices :: Device(Manager([], [], map[]), [], Quiet, true), [], {}, [], [])
    else Happen(hash, HappenAll(hash, devices, run[..|run| - 1]), run[|run| - 1])
  }

  // ---- The marks on one device ----

  ghost predicate HasMark(s: seq<Stamped<Mark>>, hash: Bytes, at: Time) {
    exists e :: e in s && e.item.hash == hash && e.at == at
  }

  /** A mark that the next arming cannot evict. */
  ghost predicate Guarded(s: seq<Stamped<Mark>>, hash: Bytes, at: Time) {
    HasMark(s, hash, at) && (|s| < SUPPRESSION_ENTRIES || HasMark(s[1..], hash, at))
  }

  ghost predicate MarksOk(s: seq<Stamped<Mark>>, now: Time) {
    |s| <= SUPPRESSION_ENTRIES && forall e :: e in s ==> e.at <= now
  }

  /** A peer's clip still to be noticed has its mark until the suppression time is over; on a clean device
      no other mark is left. */
  ghost predicate DeviceOk(hash: ContentHash, d: Device, now: Time) {
    && MarksOk(d.m.suppression, now)
    && (forall p :: p in d.m.pending ==> ValidText(d.m.pending[p].text))
    && (d.signal.ByPeer? ==> && d.signal.marked <= now && ValidText(d.clipboard)
                             && (InTime(d.signal.marked, now) ==>
                                   Guarded(d.m.suppression, hash(d.clipboard), d.signal.marked)))
    && (d.clean ==> OnlyPending(hash, d))
  }

  ghost predicate OnlyPending(hash: ContentHash, d: Device) {
    d.m.suppression == [] || (&& d.signal.ByPeer? && |d.m.suppression| == 1
                              && d.m.suppression[0].item.hash == hash(d.clipboard)
                              && d.m.suppression[0].at == d.signal.marked)
  }

  /** A mark for that text is live. */
  ghost predicate LiveMark(s: seq<Stamped<Mark>>, hash: Bytes, now: Time) {
    exists e :: e in s && e.item.hash == hash && Alive(e, now, SUPPRESSION_TTL)
  }

  lemma LiveMembers(s: seq<Stamped<Mark>>, now: Time)
    ensures forall e :: e in Live(s, now, SUPPRESSION_TTL) <==> e in s && Alive(e, now, SUPPRESSION_TTL)
    ensures |Live(s, now, SUPPRESSION_TTL)| <= |s|
    ensures |Live(s, now, SUPPRESSION_TTL)| == |s| ==> Live(s, now, SUPPRESSION_TTL) == s
  {
    var alive := (e: Stamped<Mark>) => Alive(e, now, SUPPRESSION_TTL);
    forall e ensures e in Live(s, now, SUPPRESSION_TTL) <==> e in s && Alive(e, now, SUPPRESSION_TTL) {
      FilterMember(s, alive, e);
    }
    FilterFull(s, alive);
  }

  lemma AllLive(s: seq<Stamped<Mark>>, now: Time)
    requires forall e :: e in s ==> Alive(e, now, SUPPRESSION_TTL)
    ensures Live(s, now, SUPPRESSION_TTL) == s
  {
    FilterAll(s, (e: Stamped<Mark>) => Alive(e, now, SUPPRESSION_TTL));
  }

  /** Arming leaves only live marks, the new one last. */
  lemma ArmingKeeps(s: seq<Stamped<Mark>>, mark: Mark, now: Time)
    requires MarksOk(s, now)
    ensures var armed := ArmEntries(s, SUPPRESSION_ENTRIES, SUPPRESSION_TTL, mark, now);
            && armed != [] && armed[|armed| - 1] == Stamped(mark, now) && MarksOk(armed, now)
            && (forall e :: e in armed ==> Alive(e, now, SUPPRESSION_TTL))
  {
    LiveMembers(s, now);
    var live, x := Live(s, now, SUPPRESSION_TTL), Stamped(mark, now);
    var armed := ArmEntries(s, SUPPRESSION_ENTRIES, SUPPRESSION_TTL, mark, now);
    var kept := if |live| < SUPPRESSION_ENTRIES then live else live[1..];
    assert armed == kept + [x];
  }

  /** And it keeps a guarded mark that is live. */
  lemma ArmingKeepsGuarded(s: seq<Stamped<Mark>>, mark: Mark, now: Time, h: Bytes, at: Time)
    requires MarksOk(s, now) && Guarded(s, h, at) && at <= now && InTime(at, now)
    ensures var armed := ArmEntries(s, SUPPRESSION_ENTRIES, SUPPRESSION_TTL, mark, now);
            armed != [] && HasMark(armed[..|armed| - 1], h, at)
  {
    LiveMembers(s, now);
    var live, x := Live(s, now, SUPPRESSION_TTL), Stamped(mark, now);
    var armed := ArmEntries(s, SUPPRESSION_ENTRIES, SUPPRESSION_TTL, mark, now);
    var kept := if |live| < SUPPRESSION_ENTRIES then live else live[1..];
    assert armed == kept + [x] && armed[..|armed| - 1] == kept;
    var from := if |s| < SUPPRESSION_ENTRIES then s else s[1..];
    var e :| e in from && e.item.hash == h && e.at == at;
    assert e in s && Alive(e, now, SUPPRESSION_TTL);
    assert e in kept;
  }

  /** Taking back the newest mark's hash leaves a mark of each hash there was before it. */
  lemma TakingKeeps(armed: seq<Stamped<Mark>>, k: nat, h: Bytes, at: Time)
    requires k < |armed| <= SUPPRESSION_ENTRIES && armed[k].item.hash == armed[|armed| - 1].item.hash
    requires forall j :: 0 <= j < k ==> armed[j].item.hash != armed[k].item.hash
    requires HasMark(armed[..|armed| - 1], h, at)
    ensures Guarded(Without(armed, k), h, if armed[k].item.hash == h then armed[|armed| - 1].at else at)
  {
    var left, last := Without(armed, k), |armed| - 1;
    var j :| 0 <= j < last && armed[..last][j].item.hash == h && armed[..last][j].at == at;
    assert armed[..last][j] == armed[j];
    if armed[k].item.hash == h {
      assert k <= j && left[last - 1] == armed[last] && armed[last] in left;
    } else {
      assert left[if j < k then j else j - 1] == armed[j] && armed[j] in left;
    }
  }

  /** A failed write leaves a guarded mark, or a newer one of the same hash in its place. */
  lemma FailedWriteKeeps(s: seq<Stamped<Mark>>, mark: Mark, now: Time, h: Bytes, at: Time)
    requires MarksOk(s, now) && Guarded(s, h, at) && at <= now && InTime(at, now)
    ensures Guarded(AfterFailure(s, SUPPRESSION_ENTRIES, SUPPRESSION_TTL, mark, now, now), h, if mark.hash == h
            then now else at)
  {
    ArmingKeeps(s, mark, now);
    ArmingKeepsGuarded(s, mark, now, h, at);
    var armed := ArmEntries(s, SUPPRESSION_ENTRIES, SUPPRESSION_TTL, mark, now);
    AllLive(armed, now);
    TakingKeeps(armed, FirstMatch(armed, mark.hash).value, h, at);
  }

  lemma FailedWriteOk(s: seq<Stamped<Mark>>, mark: Mark, now: Time)
    requires MarksOk(s, now)
    ensures MarksOk(AfterFailure(s, SUPPRESSION_ENTRIES, SUPPRESSION_TTL, mark, now, now), now)
  {
    ArmingKeeps(s, mark, now);
    var armed := ArmEntries(s, SUPPRESSION_ENTRIES, SUPPRESSION_TTL, mark, now);
    AllLive(armed, now);
    var left := Without(armed, FirstMatch(armed, mark.hash).value);
    forall e | e in left ensures e in armed {
    }
  }

  /** With no mark or one, a failed write leaves at most one: the same, gone if it had expired, or renewed
      if it was for the same text. */
  lemma FailedWriteAlone(s: seq<Stamped<Mark>>, mark: Mark, now: Time)
    requires |s| <= 1 && MarksOk(s, now)
    ensures var left := AfterFailure(s, SUPPRESSION_ENTRIES, SUPPRESSION_TTL, mark, now, now);
            if s == [] || !Alive(s[0], now, SUPPRESSION_TTL) then left == []
            else && |left| == 1 && left[0].item.hash == s[0].item.hash
                 && left[0].at == if mark.hash == s[0].item.hash then now else s[0].at
  {
    var x := Stamped(mark, now);
    LiveMembers(s, now);
    if s == [] || !Alive(s[0], now, SUPPRESSION_TTL) {
      assert Live(s, now, SUPPRESSION_TTL) == [];
      assert ArmEntries(s, SUPPRESSION_ENTRIES, SUPPRESSION_TTL, mark, now) == [x];
      AllLive([x], now);
    } else {
      AllLive(s, now);
      assert s == [s[0]];
      assert ArmEntries(s, SUPPRESSION_ENTRIES, SUPPRESSION_TTL, mark, now) == [s[0], x];
      AllLive([s[0], x], now);
      assert FirstMatch([s[0], x], mark.hash) == Some(if s[0].item.hash == mark.hash then 0 else 1);
    }
  }

  lemma FailedWriteKeepsDevice(hash: ContentHash, d: Device, text: Bytes, origin: string, now: Time)
    requires DeviceOk(hash, d, now)
    ensures DeviceOk(hash, d.(m := Write(d.m, Mark(hash(text), origin), false, now),
            signal := Remarked(hash, d, text, now)), now)
  {
    var mark := Mark(hash(text), origin);
    var s := d.m.suppression;
    assert Write(d.m, mark, false, now).suppression
      == AfterFailure(s, SUPPRESSION_ENTRIES, SUPPRESSION_TTL, mark, now, now);
    FailedWriteOk(s, mark, now);
    if d.signal.ByPeer? && InTime(d.signal.marked, now) {
      FailedWriteKeeps(s, mark, now, hash(d.clipboard), d.signal.marked);
    }
    if d.clean {
      FailedWriteAlone(s, mark, now);
    }
  }

  lemma WriteKeepsDevice(hash: ContentHash, d: Device, text: Bytes, origin: string, now: Time)
    requires DeviceOk(hash, d, now) && d.signal.Quiet? && ValidText(text)
    ensures DeviceOk(hash, Device(Write(d.m, Mark(hash(text), origin), true, now), text, ByPeer(now), d.clean), now)
  {
    var mark := Mark(hash(text), origin);
    ArmingKeeps(d.m.suppression, mark, now);
    var armed := ArmEntries(d.m.suppression, SUPPRESSION_ENTRIES, SUPPRESSION_TTL, mark, now);
    assert armed[|armed| - 1] in armed;
    assert |armed| > 1 ==> armed[|armed| - 1] == armed[1..][|armed| - 2];
    if d.clean {
      assert Live(d.m.suppression, now, SUPPRESSION_TTL) == [];
      assert armed == [Stamped(mark, now)];
    }
  }

  lemma ArriveKeepsDevice(hash: ContentHash, d: Device, peer: Fingerprint, peerDeviceId: string, u: Update,
                          policy: Policy, writeOk: bool, now: Time)
    requires DeviceOk(hash, d, now)
    requires Receive(d.m, hash, peer, peerDeviceId, u, policy, writeOk, now).2 ==> d.signal.Quiet?
    ensures DeviceOk(hash, Arrived(hash, d, peer, peerDeviceId, u, policy, writeOk, now), now)
  {
    var (m, outcome, wrote) := Receive(d.m, hash, peer, peerDeviceId, u, policy, writeOk, now);
    ReceiveWrites(d.m, hash, peer, peerDeviceId, u, policy, writeOk, now);
    var origin := if u.origin == "" then peerDeviceId else u.origin;
    var admitted := d.(m := d.m.(events := m.events));
    if outcome.Applied? {
      WriteKeepsDevice(hash, admitted, u.text, origin, now);
    } else if outcome.Failed? {
      FailedWriteKeepsDevice(hash, admitted, u.text, origin, now);
    }
  }

  /** What an update does to the marks and the held clips. */
  lemma ReceiveWrites(m: Manager, hash: ContentHash, peer: Fingerprint, peerDeviceId: string, u: Update,
                      policy: Policy, writeOk: bool, now: Time)
    ensures var (after, outcome, wrote) := Receive(m, hash, peer, peerDeviceId, u, policy, writeOk, now);
            var origin := if u.origin == "" then peerDeviceId else u.origin;
            && wrote == outcome.Applied?
            && (outcome.Applied? || outcome.Failed? ==>
                  ValidText(u.text) && after
                    == Write(m.(events := after.events), Mark(hash(u.text), origin), wrote, now))
            && (!outcome.Applied? && !outcome.Failed? ==> after.suppression == m.suppression)
            && (forall p :: p in after.pending ==>
                  (p in m.pending && after.pending[p] == m.pending[p]) || ValidText(after.pending[p].text))
  {
  }

  lemma AcceptKeepsDevice(hash: ContentHash, d: Device, peer: Fingerprint, policy: Policy, writeOk: bool, now: Time)
    requires DeviceOk(hash, d, now)
    requires ApplyHeld(d.m, hash, peer, policy, writeOk, now).1.Ok? ==> d.signal.Quiet?
    ensures DeviceOk(hash, Accepted(hash, d, peer, policy, writeOk, now), now)
  {
    if policy.allowReceive && peer in d.m.pending && StillHeld(d.m.pending[peer], now) {
      var clip := d.m.pending[peer];
      var removed := d.(m := d.m.(pending := d.m.pending - {peer}));
      if writeOk {
        WriteKeepsDevice(hash, removed, clip.text, clip.origin, now);
      } else {
        FailedWriteKeepsDevice(hash, removed, clip.text, clip.origin, now);
      }
    }
  }

  /** The handler sends exactly when the clipboard can be read and carried and no mark for it is live. */
  lemma HandledExactly(hash: ContentHash, d: Device, peers: seq<Fingerprint>, reachable: set<Fingerprint>, read: bool,
                       now: Time)
    ensures Handled(hash, d, peers, reachable, read, now).1
         == if Readable(d, read).Some? && !LiveMark(d.m.suppression, hash(d.clipboard), now)
            then Filter(peers, (p: Fingerprint) => p in reachable) else []
  {
    LiveMembers(d.m.suppression, now);
    var live := Live(d.m.suppression, now, SUPPRESSION_TTL);
    var k := FirstMatch(live, hash(d.clipboard));
    if k.Some? {
      assert live[k.value] in live;
    }
  }

  /** A peer's clip noticed in time has a live mark; on a clean device it has one only then, and a user's
      copy has none. */
  lemma MarkedExactly(hash: ContentHash, d: Device, now: Time)
    requires DeviceOk(hash, d, now)
    ensures d.signal.ByPeer? && InTime(d.signal.marked, now) ==> LiveMark(d.m.suppression, hash(d.clipboard), now)
    ensures d.clean ==> (LiveMark(d.m.suppression, hash(d.clipboard), now)
            <==> d.signal.ByPeer? && InTime(d.signal.marked, now))
  {
    if d.signal.ByPeer? && InTime(d.signal.marked, now) {
      var e :| e in d.m.suppression && e.item.hash == hash(d.clipboard) && e.at == d.signal.marked;
      assert Alive(e, now, SUPPRESSION_TTL);
    }
  }

  lemma NoticeKeepsDevice(hash: ContentHash, d: Device, peers: seq<Fingerprint>, reachable: set<Fingerprint>,
                          read: bool, now: Time)
    requires DeviceOk(hash, d, now) && !d.signal.Quiet?
    ensures DeviceOk(hash, Quieted(d, Handled(hash, d, peers, reachable, read, now).0, read), now)
  {
    var s, after := d.m.suppression, Handled(hash, d, peers, reachable, read, now).0;
    LiveMembers(s, now);
    var live := Live(s, now, SUPPRESSION_TTL);
    assert forall e :: e in after.suppression ==> e in s by {
      forall e | e in after.suppression ensures e in s {
        assert Readable(d, read).Some? ==> e in live;
      }
    }
    if d.clean && d.signal.ByPeer? && read {
      assert live == [] || live == [s[0]];
    }
  }

  // ---- Every run ----

  ghost predicate CopiesOk(n: Net) {
    && (forall c :: c in n.noticed ==> c < |n.copies|)
    && (forall d :: d in n.devices && n.devices[d].signal.ByUser? ==>
          var c := n.devices[d].signal.copy; c < |n.copies| && n.copies[c] == d && c !in n.noticed)
  }

  /** Device `from` is where that copy was made, or that late clip noticed, and this has been handled. */
  ghost predicate CausedBy(n: Net, cause: Cause, from: nat) {
    match cause
    case OfCopy(c) => c in n.noticed && c < |n.copies| && n.copies[c] == from
    case LateClip(c) => c < |n.late| && n.late[c] == from
  }

  /** Each update is by the device where its cause arose, once to each peer. */
  ghost predicate SentOk(n: Net) {
    && (forall i :: 0 <= i < |n.sent| ==> CausedBy(n, n.sent[i].cause, n.sent[i].from))
    && (forall i, j :: 0 <= i < j < |n.sent| ==> n.sent[i].cause != n.sent[j].cause || n.sent[i].to != n.sent[j].to)
  }

  ghost predicate NetOk(hash: ContentHash, n: Net) {
    && (forall d :: d in n.devices ==> DeviceOk(hash, n.devices[d], n.now))
    && CopiesOk(n) && SentOk(n)
  }

  lemma HappenKeepsDevices(hash: ContentHash, n: Net, h: Happening, d: nat)
    requires NetOk(hash, n) && d in n.devices
    ensures d in Happen(hash, n, h).devices && DeviceOk(hash, Happen(hash, n, h).devices[d], Happen(hash, n, h).now)
  {
    assert DeviceOk(hash, n.devices[d], n.now);
    if Allowed(hash, n, h) {
      match h
      case Pass(_) =>
      case Copy(_, _) =>
      case Arrive(x, peer, peerDeviceId, u, policy, writeOk) =>
        if x == d { ArriveKeepsDevice(hash, n.devices[d], peer, peerDeviceId, u, policy, writeOk, n.now); }
      case Accept(x, peer, policy, writeOk) =>
        if x == d { AcceptKeepsDevice(hash, n.devices[d], peer, policy, writeOk, n.now); }
      case Notice(x, peers, reachable, read) =>
        if x == d { NoticeKeepsDevice(hash, n.devices[d], peers, reachable, read, n.now); }
      case Forget(_, _) =>
    }
  }

  lemma HappenKeepsDeviceSet(hash: ContentHash, n: Net, h: Happening)
    ensures Happen(hash, n, h).devices.Keys == n.devices.Keys
  {
  }

  lemma {:induction false} FilterDistinct<T>(s: seq<T>, p: T -> bool)
    requires Distinct(s)
    ensures Distinct(Filter(s, p))
  {
    if s != [] {
      FilterDistinct(s[1..], p);
      forall j | 0 <= j < |Filter(s[1..], p)| ensures Filter(s[1..], p)[j] != s[0] {
        FilterMember(s[1..], p, Filter(s[1..], p)[j]);
      }
    }
  }

  /** What a notice sends: to distinct peers, and for a peer's clip only when it was late. */
  lemma NoticeSends(hash: ContentHash, n: Net, h: Happening)
    requires NetOk(hash, n) && h.Notice? && Allowed(hash, n, h)
    ensures var to := Handled(hash, n.devices[h.device], h.autoSendPeers, h.reachable, h.read, n.now).1;
            && Distinct(to) && |to| <= |h.autoSendPeers|
            && (n.devices[h.device].signal.ByPeer? && InTime(n.devices[h.device].signal.marked, n.now) ==> to == [])
  {
    var d := n.devices[h.device];
    assert DeviceOk(hash, d, n.now);
    HandledExactly(hash, d, h.autoSendPeers, h.reachable, h.read, n.now);
    MarkedExactly(hash, d, n.now);
    FilterDistinct(h.autoSendPeers, (p: Fingerprint) => p in h.reachable);
    FilterFull(h.autoSendPeers, (p: Fingerprint) => p in h.reachable);
  }

  lemma HappenKeepsSent(hash: ContentHash, n: Net, h: Happening)
    requires NetOk(hash, n)
    ensures CopiesOk(Happen(hash, n, h)) && SentOk(Happen(hash, n, h))
  {
    if Allowed(hash, n, h) && h.Notice? {
      NoticeSends(hash, n, h);
      var (m, to) := Handled(hash, n.devices[h.device], h.autoSendPeers, h.reachable, h.read, n.now);
      AnnouncedKeepsSent(n, h.device, Quieted(n.devices[h.device], m, h.read), to);
    } else {
      QuietKeepsSent(hash, n, h);
    }
  }

  lemma QuietKeepsSent(hash: ContentHash, n: Net, h: Happening)
    requires CopiesOk(n) && SentOk(n) && !(Allowed(hash, n, h) && h.Notice?)
    ensures CopiesOk(Happen(hash, n, h)) && SentOk(Happen(hash, n, h))
  {
  }

  lemma AnnouncedKeepsSent(n: Net, d: nat, after: Device, to: seq<Fingerprint>)
    requires CopiesOk(n) && SentOk(n) && Distinct(to)
    requires d in n.devices && !n.devices[d].signal.Quiet? && after.signal.Quiet?
    requires n.devices[d].signal.ByPeer? && InTime(n.devices[d].signal.marked, n.now) ==> to == []
    ensures CopiesOk(Announced(n, d, after, to)) && SentOk(Announced(n, d, after, to))
  {
    if n.devices[d].signal.ByUser? {
      var c := n.devices[d].signal.copy;
      assert forall e :: e in n.devices && e != d && n.devices[e].signal.ByUser? ==> n.devices[e].signal.copy != c;
    }
  }

  lemma {:induction false} RunKeepsNet(hash: ContentHash, devices: set<nat>, run: seq<Happening>)
    ensures NetOk(hash, HappenAll(hash, devices, run))
    ensures HappenAll(hash, devices, run).devices.Keys == devices
  {
    if run != [] {
      var n, h := HappenAll(hash, devices, run[..|run| - 1]), run[|run| - 1];
      RunKeepsNet(hash, devices, run[..|run| - 1]);
      HappenKeepsSent(hash, n, h);
      HappenKeepsDeviceSet(hash, n, h);
      forall d | d in Happen(hash, n, h).devices ensures DeviceOk(hash, Happen(hash, n, h).devices[d],
        Happen(hash, n, h).now) {
        HappenKeepsDevices(hash, n, h, d);
      }
    }
  }

  lemma {:induction false} TrafficBound(hash: ContentHash, devices: set<nat>, run: seq<Happening>, peers: nat)
    requires forall i :: 0 <= i < |run| && run[i].Notice? ==> |run[i].autoSendPeers| <= peers
    ensures var n := HappenAll(hash, devices, run); |n.sent| <= (|n.noticed| + |n.late|) * peers
  {
    if run != [] {
      var n, h := HappenAll(hash, devices, run[..|run| - 1]), run[|run| - 1];
      TrafficBound(hash, devices, run[..|run| - 1], peers);
      RunKeepsNet(hash, devices, run[..|run| - 1]);
      if Allowed(hash, n, h) && h.Notice? {
        NoticeSends(hash, n, h);
        OneMore(n.noticed, |n.late|, peers);
        if n.devices[h.device].signal.ByUser? {
          assert n.devices[h.device].signal.copy !in n.noticed;
        }
      }
    }
  }

  lemma OneMore(noticed: set<nat>, late: nat, peers: nat)
    ensures (|noticed| + late + 1) * peers == (|noticed| + late) * peers + peers
  {
  }

  lemma {:induction false} BoundedSet(s: set<nat>, n: nat)
    requires forall x :: x in s ==> x < n
    ensures |s| <= n
  {
    if n > 0 {
      BoundedSet(s - {n - 1}, n - 1);
    } else {
      assert s == {};
    }
  }

  /** In every run of any set of devices, whatever updates arrive, whatever reads fail and however late a
      change is noticed: each update sent is for a user's copy on the sending device, or for a peer's clip the
      sending device noticed after the suppression time, and once to each peer either way; so all traffic is
      at most copies and late clips times peers. With every clip noticed in time, nothing a peer sent is ever
      echoed or relayed. */
  lemma NoEchoNoRelay(hash: ContentHash, devices: set<nat>, run: seq<Happening>, peers: nat)
    requires forall i :: 0 <= i < |run| && run[i].Notice? ==> |run[i].autoSendPeers| <= peers
    ensures var n := HappenAll(hash, devices, run);
            && (forall i :: 0 <= i < |n.sent| ==> CausedBy(n, n.sent[i].cause, n.sent[i].from))
            && (forall i, j :: 0 <= i < j < |n.sent| ==>
                  n.sent[i].cause != n.sent[j].cause || n.sent[i].to != n.sent[j].to)
            && |n.sent| <= (|n.copies| + |n.late|) * peers
  {
    var n := HappenAll(hash, devices, run);
    RunKeepsNet(hash, devices, run);
    TrafficBound(hash, devices, run, peers);
    BoundedSet(n.noticed, |n.copies|);
    MulMono(|n.noticed| + |n.late|, |n.copies| + |n.late|, peers);
  }

  /** A peer's clip is noticed on device `d` and cannot be read. */
  ghost predicate UnreadNow(hash: ContentHash, n: Net, h: Happening, d: nat) {
    Allowed(hash, n, h) && h.Notice? && h.device == d && !h.read && n.devices[d].signal.ByPeer?
  }

  /** Happening `i` noticed a peer's clip on device `d` and could not read it. */
  ghost predicate LeftUnread(hash: ContentHash, devices: set<nat>, run: seq<Happening>, i: nat, d: nat)
    requires i < |run|
  {
    UnreadNow(hash, HappenAll(hash, devices, run[..i]), run[i], d)
  }

  lemma HappenKeepsClean(hash: ContentHash, n: Net, h: Happening, d: nat)
    requires d in n.devices
    ensures d in Happen(hash, n, h).devices
    ensures Happen(hash, n, h).devices[d].clean
            <==> n.devices[d].clean && !UnreadNow(hash, n, h, d)
  {
  }

  /** A device is clean exactly when no peer's clip was ever left unread on it. */
  lemma {:induction false} CleanExactly(hash: ContentHash, devices: set<nat>, run: seq<Happening>, d: nat)
    requires d in devices
    ensures d in HappenAll(hash, devices, run).devices
    ensures HappenAll(hash, devices, run).devices[d].clean <==> forall i :: 0 <= i < |run| ==>
            !LeftUnread(hash, devices, run, i, d)
  {
    if run != [] {
      var before, last := run[..|run| - 1], |run| - 1;
      CleanExactly(hash, devices, before, d);
      HappenKeepsClean(hash, HappenAll(hash, devices, before), run[last], d);
      forall i | 0 <= i < last ensures LeftUnread(hash, devices, run, i, d) == LeftUnread(hash, devices, before, i, d) {
        assert before[..i] == run[..i];
      }
      assert run[..last] == before;
      assert (forall i :: 0 <= i < |run| ==> !LeftUnread(hash, devices, run, i, d))
             <==> && (forall i :: 0 <= i < last ==> !LeftUnread(hash, devices, before, i, d))
                  && !LeftUnread(hash, devices, run, last, d);
    }
  }

  /** The reachable peers that want automatic sending when a change is noticed. */
  function Wanting(h: Happening): seq<Fingerprint>
    requires h.Notice?
  {
    Filter(h.autoSendPeers, (p: Fingerprint) => p in h.reachable)
  }

  /** In every reachable state a user's copy is sent, to every reachable peer that wants it, exactly when it
      can be read and carried and no mark for the same text is live; on a device where no peer's clip was
      ever left unread there is no such mark, so a repeat of the last clip is sent too. */
  lemma CopiesAreSent(hash: ContentHash, devices: set<nat>, run: seq<Happening>, h: Happening)
    requires h.Notice? && Allowed(hash, HappenAll(hash, devices, run), h)
    requires HappenAll(hash, devices, run).devices[h.device].signal.ByUser?
    ensures var n := HappenAll(hash, devices, run);
            var d := n.devices[h.device];
            var marked := LiveMark(d.m.suppression, hash(d.clipboard), n.now);
            && (d.clean ==> !marked)
            && Happen(hash, n, h).sent
            == n.sent + (if h.read && ValidText(d.clipboard) && !marked
                         then Messages(h.device, OfCopy(d.signal.copy), Wanting(h)) else [])
  {
    var n := HappenAll(hash, devices, run);
    RunKeepsNet(hash, devices, run);
    assert DeviceOk(hash, n.devices[h.device], n.now);
    HandledExactly(hash, n.devices[h.device], h.autoSendPeers, h.reachable, h.read, n.now);
    MarkedExactly(hash, n.devices[h.device], n.now);
    assert Messages(h.device, OfCopy(n.devices[h.device].signal.copy), []) == [];
  }

  lemma HappenSnoc(hash: ContentHash, devices: set<nat>, run: seq<Happening>, h: Happening)
    ensures HappenAll(hash, devices, run + [h]) == Happen(hash, HappenAll(hash, devices, run), h)
  {
    assert (run + [h])[..|run|] == run;
  }

  /** A clip arrives and is written, its change is noticed but cannot be read, and the user copies the
      same text. */
  function UnreadThenCopied(peer: Fingerprint, u: Update): seq<Happening> {
    [Arrive(0, peer, "", u, Policy(true, true, true, true), true)] + [Notice(0, [], {}, false)] + [Copy(0, u.text)]
  }

  lemma AfterUnread(hash: ContentHash, peer: Fingerprint, u: Update)
    requires |u.eventId| == EVENT_ID_LEN && ValidText(u.text) && u.contentHash == []
    ensures var n := HappenAll(hash, {0}, UnreadThenCopied(peer, u));
            && n.now == 0 && n.sent == [] && n.copies == [0] && n.noticed == {} && 0 in n.devices
                 && n.devices[0].signal == ByUser(0)
            && n.devices[0].clipboard == u.text
                 && n.devices[0].m.suppression == [Stamped(Mark(hash(u.text), u.origin), 0)]
  {
    var policy := Policy(true, true, true, true);
    var one := [Arrive(0, peer, "", u, policy, true)];
    var start := HappenAll(hash, {0}, []);
    HappenSnoc(hash, {0}, [], one[0]);
    assert [] + one == one;
    ReceiveWrites(start.devices[0].m, hash, peer, "", u, policy, true, 0);
    HappenSnoc(hash, {0}, one, Notice(0, [], {}, false));
    HappenSnoc(hash, {0}, one + [Notice(0, [], {}, false)], Copy(0, u.text));
    assert Messages(0, LateClip(0), []) == [];
  }

  /** On a device that is not clean a genuine copy can be swallowed: the mark of a clip left unread is
      still live when the user copies the same text, whoever wants it. */
  lemma UnreadClipSwallowsCopy(hash: ContentHash, peer: Fingerprint, u: Update, peers: seq<Fingerprint>,
                               reachable: set<Fingerprint>)
    requires |u.eventId| == EVENT_ID_LEN && ValidText(u.text) && u.contentHash == [] && Distinct(peers)
    ensures var n := HappenAll(hash, {0}, UnreadThenCopied(peer, u) + [Notice(0, peers, reachable, true)]);
            n.copies == [0] && n.noticed == {0} && n.sent == []
  {
    var run, h := UnreadThenCopied(peer, u), Notice(0, peers, reachable, true);
    AfterUnread(hash, peer, u);
    HappenSnoc(hash, {0}, run, h);
    CopiesAreSent(hash, {0}, run, h);
    var n := HappenAll(hash, {0}, run);
    assert n.devices[0].m.suppression[0] in n.devices[0].m.suppression;
  }

  /** In every reachable state a peer's clip noticed in time is sent to none; on a device where none was ever
      left unread it is sent on exactly when it is read, and read too late. */
  lemma EchoExactlyWhenLate(hash: ContentHash, devices: set<nat>, run: seq<Happening>, h: Happening)
    requires h.Notice? && Allowed(hash, HappenAll(hash, devices, run), h)
    requires HappenAll(hash, devices, run).devices[h.device].signal.ByPeer?
    ensures var n := HappenAll(hash, devices, run);
            var d := n.devices[h.device];
            && (InTime(d.signal.marked, n.now) ==> Happen(hash, n, h).sent == n.sent)
            && (d.clean ==>
                  Happen(hash, n, h).sent
                  == n.sent + (if h.read && !InTime(d.signal.marked, n.now)
                               then Messages(h.device, LateClip(|n.late|), Wanting(h)) else []))
  {
    var n := HappenAll(hash, devices, run);
    RunKeepsNet(hash, devices, run);
    assert DeviceOk(hash, n.devices[h.device], n.now);
    HandledExactly(hash, n.devices[h.device], h.autoSendPeers, h.reachable, h.read, n.now);
    MarkedExactly(hash, n.devices[h.device], n.now);
    assert Messages(h.device, LateClip(|n.late|), []) == [];
  }
}
