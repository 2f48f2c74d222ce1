/** The clipboard manager: one inbound decision path, held clips, and the local change handler. Times
    are in milliseconds. */
module Clipboard {
  import opened Base
  import opened Dedup

  const EVENT_ID_LEN: nat := 16
  const MAX_CLIPBOARD_TEXT_BYTES: nat := 32768
  const EVENT_CACHE_ENTRIES: nat := 256
  const EVENT_CACHE_TTL: Time := 300_000
  const SUPPRESSION_ENTRIES: nat := 64
  const SUPPRESSION_TTL: Time := 10_000
  const PENDING_CLIP_TTL: Time := 300_000

  datatype Policy = Policy(allowSend: bool, allowReceive: bool, autoSend: bool, autoReceive: bool) {
    predicate IsDenied() { !allowSend && !allowReceive }
    predicate MayAutoReceive() { allowReceive && autoReceive }
  }

  datatype Update = Update(eventId: Bytes, text: Bytes, contentHash: Bytes, origin: string)

  datatype Outcome =
    | Applied | PendingUser | Duplicate | NotAuthorized | RejectedPolicy | TooLarge | InvalidText | Failed

  datatype SendError = NotPermitted | NothingToSend | Backend

  /** SHA-256 of the text: any function here. */
  type ContentHash = Bytes -> Bytes

  /** A clip accepted but not written, because automatic receiving is off. */
  datatype Held = Held(text: Bytes, origin: string, receivedAt: Time)

  datatype Manager = Manager(events: seq<Stamped<Bytes>>, suppression: seq<Stamped<Mark>>, pending: map<Fingerprint,
    Held>)

  /** Any non-empty text within the ceiling and free of NUL. */
  predicate ValidText(text: Bytes) {
    0 < |text| <= MAX_CLIPBOARD_TEXT_BYTES && 0 !in text
  }

  /** The checks before de-duplication, in order; `None` means the update passed them all. */
  function Screen(u: Update, policy: Policy, hash: ContentHash): Option<Outcome> {
    if policy.IsDenied() then Some(NotAuthorized)
    else if !policy.allowReceive then Some(RejectedPolicy)
    else if |u.eventId| != EVENT_ID_LEN then Some(InvalidText)
    else if |u.text| > MAX_CLIPBOARD_TEXT_BYTES then Some(TooLarge)
    else if !ValidText(u.text) then Some(InvalidText)
    else if u.contentHash != [] && u.contentHash != hash(u.text) then Some(InvalidText)
    else None
  }

  function ArmMark(m: Manager, mark: Mark, now: Time): Manager {
    m.(suppression := ArmEntries(m.suppression, SUPPRESSION_ENTRIES, SUPPRESSION_TTL, mark, now))
  }

  function TakeMark(m: Manager, hash: Bytes, now: Time): (Manager, Option<string>) {
    var (entries, origin) := TakeEntries(m.suppression, SUPPRESSION_TTL, hash, now);
    (m.(suppression := entries), origin)
  }

  /** Arms suppression, writes, and takes the mark back when the write fails. */
  function Write(m: Manager, mark: Mark, writeOk: bool, now: Time): Manager {
    var armed := ArmMark(m, mark, now);
    if writeOk then armed else TakeMark(armed, mark.hash, now).0
  }

  /** One inbound update. `writeOk` is whether the system clipboard accepts a write; the flag returned
      last says whether one happened. */
  function Receive(m: Manager, hash: ContentHash, peer: Fingerprint, peerDeviceId: string, u: Update,
                        policy: Policy, writeOk: bool, now: Time): (Manager, Outcome, bool)
  {
    var refused := Screen(u, policy, hash);
    if refused.Some? then (m, refused.value, false) else
    var (events, isNew) := AdmitEntries(m.events, EVENT_CACHE_ENTRIES, EVENT_CACHE_TTL, u.eventId, now);
    var admitted := m.(events := events);
    if !isNew then (admitted, Duplicate, false) else
    var origin := if u.origin == "" then peerDeviceId else u.origin;
    if !policy.MayAutoReceive() then
      (admitted.(pending := m.pending[peer := Held(u.text, origin, now)]), PendingUser, false)
    else
      (Write(admitted, Mark(hash(u.text), origin), writeOk, now), if writeOk then Applied else Failed, writeOk)
  }

  predicate StillHeld(h: Held, now: Time) {
    (if now < h.receivedAt then 0 else now - h.receivedAt) < PENDING_CLIP_TTL
  }

  function ListPending(m: Manager, now: Time): Manager {
    m.(pending := map p | p in m.pending && StillHeld(m.pending[p], now) :: m.pending[p])
  }

  /** Applying a held clip by hand. On failure it is put back as it was. */
  function ApplyHeld(m: Manager, hash: ContentHash, peer: Fingerprint, policy: Policy, writeOk: bool, now: Time)
    : (Manager, Result<nat, SendError>)
  {
    if !policy.allowReceive then (m, Err(NotPermitted))
    else if peer !in m.pending then (m, Err(NothingToSend))
    else
      var clip := m.pending[peer];
      var removed := m.(pending := m.pending - {peer});
      if !StillHeld(clip, now) then (removed, Err(NothingToSend)) else
      var written := Write(removed, Mark(hash(clip.text), clip.origin), writeOk, now);
      if writeOk then (written, Ok(|clip.text|))
      else (ListPending(written.(pending := written.pending[peer := clip]), now), Err(Backend))
  }

  /** The local clipboard changed and reads as `text`: nothing is sent for an echo; otherwise one event
      goes to every peer that wants automatic sending and can be reached. */
  function LocalChange(m: Manager, hash: ContentHash, text: Option<Bytes>, autoSendPeers: seq<Fingerprint>,
                       reachable: set<Fingerprint>, now: Time): (Manager, seq<Fingerprint>)
  {
    if text.None? then (m, []) else
    var (taken, origin) := TakeMark(m, hash(text.value), now);
    if origin.Some? then (taken, [])
    else (taken, Filter(autoSendPeers, (p: Fingerprint) => p in reachable))
  }

  function Detach(m: Manager, peer: Fingerprint): Manager {
    m.(pending := m.pending - {peer})
  }

  class ClipboardManager {
    const events: EventCache
    const suppression: SuppressionCache
    var pending: map<Fingerprint, Held>

    ghost predicate Valid()
      reads this, events, suppression
    {
      && events.Valid() && events.capacity == EVENT_CACHE_ENTRIES && events.ttl == EVENT_CACHE_TTL
      && suppression.Valid() && suppression.capacity == SUPPRESSION_ENTRIES && suppression.ttl == SUPPRESSION_TTL
    }

    ghost predicate Before(now: Time)
      reads events, suppression
    {
      events.clock <= now && suppression.clock <= now
    }

    function View(): Manager
      reads this, events, suppression
    {
      Manager(events.entries, suppression.entries, pending)
    }

    constructor ()
      ensures Valid() && View() == Manager([], [], map[])
      ensures fresh(events) && fresh(suppression)
    {
      events := new EventCache(EVENT_CACHE_ENTRIES, EVENT_CACHE_TTL);
      suppression := new SuppressionCache(SUPPRESSION_ENTRIES, SUPPRESSION_TTL);
      pending := map[];
      new;
      assert events.entries == [];
    }

    /** The order is the mechanism: the mark exists before the write, so the echo cannot overtake it. */
    method Apply(hash: ContentHash, text: Bytes, origin: string, writeOk: bool, now: Time) returns (outcome: Outcome)
      requires Valid() && Before(now)
      modifies suppression
      ensures Valid() && Before(now)
      ensures View() == Write(old(View()), Mark(hash(text), origin), writeOk, now)
      ensures outcome == if writeOk then Applied else Failed
    {
      suppression.Arm(hash(text), origin, now);
      if writeOk {
        return Applied;
      }
      var _ := suppression.Take(hash(text), now);
      return Failed;
    }

    method HandleUpdate(hash: ContentHash, peer: Fingerprint, peerDeviceId: string, u: Update, policy: Policy,
                        writeOk: bool, now: Time)
      returns (outcome: Outcome)
      requires Valid() && Before(now)
      modifies this, events, suppression
      ensures Valid() && Before(now)
      ensures (View(), outcome, outcome.Applied?)
              == Receive(old(View()), hash, peer, peerDeviceId, u, policy, writeOk, now)
    {
      if policy.IsDenied() {
        return NotAuthorized;
      }
      if !policy.allowReceive {
        return RejectedPolicy;
      }
      if |u.eventId| != EVENT_ID_LEN {
        return InvalidText;
      }
      if |u.text| > MAX_CLIPBOARD_TEXT_BYTES {
        return TooLarge;
      }
      if !ValidText(u.text) || (u.contentHash != [] && u.contentHash != hash(u.text)) {
        return InvalidText;
      }
      var isNew := events.Admit(u.eventId, now);
      if !isNew {
        return Duplicate;
      }
      var origin := if u.origin == "" then peerDeviceId else u.origin;
      if !policy.MayAutoReceive() {
        pending := pending[peer := Held(u.text, origin, now)];
        return PendingUser;
      }
      outcome := Apply(hash, u.text, origin, writeOk, now);
    }

    method PendingClips(now: Time)
      requires Valid() && Before(now)
      modifies `pending
      ensures Valid() && Before(now) && View() == ListPending(old(View()), now)
    {
      pending := map p | p in pending && StillHeld(pending[p], now) :: pending[p];
    }

    method ApplyPending(hash: ContentHash, peer: Fingerprint, policy: Policy, writeOk: bool, now: Time)
      returns (r: Result<nat, SendError>)
      requires Valid() && Before(now)
      modifies this, suppression
      ensures Valid() && Before(now)
      ensures (View(), r) == ApplyHeld(old(View()), hash, peer, policy, writeOk, now)
    {
      if !policy.allowReceive {
        return Err(NotPermitted);
      }
      if peer !in pending {
        return Err(NothingToSend);
      }
      var clip := pending[peer];
      pending := pending - {peer};
      if !StillHeld(clip, now) {
        return Err(NothingToSend);
      }
      suppression.Arm(hash(clip.text), clip.origin, now);
      if writeOk {
        return Ok(|clip.text|);
      }
      var _ := suppression.Take(hash(clip.text), now);
      pending := pending[peer := clip];
      PendingClips(now);
      return Err(Backend);
    }

    method OnLocalChange(hash: ContentHash, text: Option<Bytes>, autoSendPeers: seq<Fingerprint>,
                         reachable: set<Fingerprint>, now: Time)
      returns (sent: seq<Fingerprint>)
      requires Valid() && Before(now)
      modifies suppression
      ensures Valid() && Before(now)
      ensures (View(), sent) == LocalChange(old(View()), hash, text, autoSendPeers, reachable, now)
    {
      sent := [];
      if text.None? {
        return;
      }
      var origin := suppression.Take(hash(text.value), now);
      if origin.Some? {
        return;
      }
      sent := DeliverToAll(autoSendPeers, reachable);
    }

    /** One event, one delivery attempt per peer; an unreachable peer is skipped. */
    method DeliverToAll(autoSendPeers: seq<Fingerprint>, reachable: set<Fingerprint>) returns (sent: seq<Fingerprint>)
      ensures sent == Filter(autoSendPeers, (p: Fingerprint) => p in reachable)
    {
      sent := [];
      for i := 0 to |autoSendPeers|
        invariant sent == Filter(autoSendPeers[..i], (p: Fingerprint) => p in reachable)
      {
        assert autoSendPeers[..i + 1] == autoSendPeers[..i] + [autoSendPeers[i]];
        FilterSnoc(autoSendPeers[..i], autoSendPeers[i], (p: Fingerprint) => p in reachable);
        if autoSendPeers[i] in reachable {
          sent := sent + [autoSendPeers[i]];
        }
      }
      assert autoSendPeers[..|autoSendPeers|] == autoSendPeers;
    }

    method DetachSession(peer: Fingerprint)
      modifies `pending
      ensures View() == Detach(old(View()), peer)
    {
      pending := pending - {peer};
    }
  }
}
