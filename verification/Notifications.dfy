/** The two receiving machines of the notification protocol: a peer's announced roles, and the snapshot
    bracket. Both are characterised over whole traces. */
module Notifications {
  import opened Base

  // ---- Roles ----

  datatype Role = Source | Sink | DismissTarget | DismissReporter

  /** Unknown and unspecified wire values are no role. */
  function FromWire(value: int): Option<Role> {
    if value == 1 then Some(Source)
    else if value == 2 then Some(Sink)
    else if value == 3 then Some(DismissTarget)
    else if value == 4 then Some(DismissReporter)
    else None
  }

  datatype Announcement = Announcement(epoch: nat, roles: seq<int>)

  datatype RolesRejection = UnsetEpoch | StaleEpoch(last: nat, got: nat)

  /** The roles a peer claims, and the epoch it claimed them in. */
  datatype Claim = Claim(roles: set<Role>, epoch: nat)

  const NO_CLAIM := Claim({}, 0)

  ghost function Known(wire: seq<int>): set<Role> {
    set i | 0 <= i < |wire| && FromWire(wire[i]).Some? :: FromWire(wire[i]).value
  }

  ghost function Announce(c: Claim, a: Announcement): Claim {
    if a.epoch == 0 || a.epoch <= c.epoch then c else Claim(Known(a.roles), a.epoch)
  }

  method CollectRoles(wire: seq<int>) returns (roles: set<Role>)
    ensures roles == Known(wire)
  {
    roles := {};
    for i := 0 to |wire|
      invariant roles == Known(wire[..i])
    {
      KnownSnoc(wire, i);
      if FromWire(wire[i]).Some? {
        roles := roles + {FromWire(wire[i]).value};
      }
    }
    assert wire[..|wire|] == wire;
  }

  lemma KnownSnoc(wire: seq<int>, i: nat)
    requires i < |wire|
    ensures Known(wire[..i + 1]) == Known(wire[..i])
            + (if FromWire(wire[i]).Some? then {FromWire(wire[i]).value} else {})
  {
    assert forall k :: 0 <= k < i ==> wire[..i][k] == wire[..i + 1][k];
    assert wire[..i + 1][i] == wire[i];
  }

  class PeerRoles {
    var roles: set<Role>
    var epoch: nat

    function View(): Claim
      reads this
    {
      Claim(roles, epoch)
    }

    constructor ()
      ensures View() == NO_CLAIM
    {
      roles, epoch := {}, 0;
    }

    /** Replaces the whole set, or refuses and changes nothing. */
    method Apply(a: Announcement) returns (r: Result<(), RolesRejection>)
      modifies this
      ensures View() == Announce(old(View()), a)
      ensures r == if a.epoch == 0 then Err(UnsetEpoch)
                   else if a.epoch <= old(epoch) then Err(StaleEpoch(old(epoch), a.epoch)) else Ok(())
    {
      if a.epoch == 0 {
        return Err(UnsetEpoch);
      }
      if a.epoch <= epoch {
        return Err(StaleEpoch(epoch, a.epoch));
      }
      var known := CollectRoles(a.roles);
      roles, epoch := known, a.epoch;
      r := Ok(());
    }
  }

  ghost function Claimed(run: seq<Announcement>): Claim {
    if run == [] then NO_CLAIM else Announce(Claimed(run[..|run| - 1]), run[|run| - 1])
  }

  /** Announcement `i` is the first with the greatest epoch. */
  predicate Newest(run: seq<Announcement>, i: nat) {
    && i < |run| && run[i].epoch != 0
    && (forall j :: 0 <= j < |run| ==> run[j].epoch <= run[i].epoch)
    && (forall j :: 0 <= j < i ==> run[j].epoch < run[i].epoch)
  }

  /** The claim held after `run` is the one announcement `i` made, and that one is the newest. */
  ghost predicate Decides(run: seq<Announcement>, i: nat) {
    Newest(run, i) && Claimed(run) == Claim(Known(run[i].roles), run[i].epoch)
  }

  /** After any sequence of announcements the roles are those of the first one with the greatest non-zero
      epoch, and none at all when every epoch was zero. */
  lemma {:induction false} RolesAreTheNewest(run: seq<Announcement>)
    ensures || (Claimed(run) == NO_CLAIM && forall j :: 0 <= j < |run| ==> run[j].epoch == 0)
            || exists i :: Decides(run, i)
  {
    if run != [] {
      var before, n := run[..|run| - 1], |run| - 1;
      RolesAreTheNewest(before);
      if i: nat :| Decides(before, i) {
        NewestSnoc(run, i);
        if run[n].epoch > before[i].epoch {
          assert Decides(run, n);
        } else {
          assert Decides(run, i);
        }
      } else {
        assert forall j :: 0 <= j < n ==> run[j].epoch == before[j].epoch == 0;
        assert run[n].epoch != 0 ==> Decides(run, n);
      }
    }
  }

  lemma NewestSnoc(run: seq<Announcement>, i: nat)
    requires run != [] && Newest(run[..|run| - 1], i)
    ensures if run[|run| - 1].epoch > run[i].epoch then Newest(run, |run| - 1) else Newest(run, i)
  {
    assert forall j :: 0 <= j < |run| - 1 ==> run[..|run| - 1][j] == run[j];
  }

  /** So when no two different announcements share an epoch other than zero, reordering or repeating them
      changes nothing. */
  lemma OrderDoesNotMatter(run: seq<Announcement>, other: seq<Announcement>)
    requires forall a :: a in run <==> a in other
    requires forall a, b :: a in run && b in run && a.epoch == b.epoch != 0 ==> a == b
    ensures Claimed(run) == Claimed(other)
  {
    RolesAreTheNewest(run);
    RolesAreTheNewest(other);
    if i: nat :| Decides(run, i) {
      assert run[i] in other;
      var k :| 0 <= k < |other| && other[k] == run[i];
      assert other[k] in other && other[k].epoch != 0;
      var j: nat :| Decides(other, j);
      assert other[j] in run;
    } else {
      NothingAnnounced(run, other);
    }
  }

  lemma NothingAnnounced(run: seq<Announcement>, other: seq<Announcement>)
    requires forall a :: a in other ==> a in run
    requires forall j :: 0 <= j < |run| ==> run[j].epoch == 0
    ensures Claimed(other) == NO_CLAIM
  {
    RolesAreTheNewest(other);
    assert forall j :: 0 <= j < |other| ==> other[j] in run;
  }

  // ---- Snapshots ----

  type NotificationId = Bytes

  datatype Phase = Begin | End | Unspecified

  datatype Event = Marker(phase: Phase, syncId: Bytes) | Upsert(id: NotificationId) | Abandon

  datatype Open = Open(syncId: Bytes, named: set<NotificationId>)

  datatype SnapshotRejection = EndWithoutBegin | WrongSyncId

  datatype SnapshotStep =
    | Opened
    | Restarted
    | Recorded
    | Live
    | Complete(named: set<NotificationId>)
    | Ignored(why: SnapshotRejection)
    | Abandoned

  class Snapshot {
    var open: Option<Open>

    constructor ()
      ensures open == None
    {
      open := None;
    }

    method Mark(phase: Phase, syncId: Bytes) returns (r: SnapshotStep)
      modifies this
      ensures open == After(old(open), Marker(phase, syncId))
      ensures r == Answer(old(open), Marker(phase, syncId))
    {
      match phase
      case Begin =>
        r := if open.Some? then Restarted else Opened;
        open := Some(Open(syncId, {}));
      case End =>
        var taken := open;
        open := None;
        if taken.None? {
          r := Ignored(EndWithoutBegin);
        } else if taken.value.syncId == syncId {
          r := Complete(taken.value.named);
        } else {
          open := taken;
          r := Ignored(WrongSyncId);
        }
      case Unspecified =>
        r := Ignored(EndWithoutBegin);
    }

    method Record(id: NotificationId) returns (r: SnapshotStep)
      modifies this
      ensures open == After(old(open), Upsert(id))
      ensures r == Answer(old(open), Upsert(id))
    {
      if open.Some? {
        open := Some(open.value.(named := open.value.named + {id}));
        r := Recorded;
      } else {
        r := Live;
      }
    }

    method GiveUp()
      modifies this
      ensures open == After(old(open), Abandon)
    {
      open := None;
    }
  }

  function After(open: Option<Open>, e: Event): Option<Open> {
    match e
    case Marker(Begin, syncId) => Some(Open(syncId, {}))
    case Marker(End, syncId) => if open.Some? && open.value.syncId == syncId then None else open
    case Marker(Unspecified, _) => open
    case Upsert(id) => if open.Some? then Some(open.value.(named := open.value.named + {id})) else None
    case Abandon => None
  }

  function Answer(open: Option<Open>, e: Event): SnapshotStep {
    match e
    case Marker(Begin, _) => if open.Some? then Restarted else Opened
    case Marker(End, syncId) =>
      if open.None? then Ignored(EndWithoutBegin)
      else if open.value.syncId == syncId then Complete(open.value.named)
      else Ignored(WrongSyncId)
    case Marker(Unspecified, _) => Ignored(EndWithoutBegin)
    case Upsert(_) => if open.Some? then Recorded else Live
    case Abandon => Abandoned
  }

  function Fed(run: seq<Event>): Option<Open> {
    if run == [] then None else After(Fed(run[..|run| - 1]), run[|run| - 1])
  }

  /** Event `e` closes a snapshot opened with `syncId`: its own end, a newer begin, or giving up. */
  predicate Closes(e: Event, syncId: Bytes) {
    e == Marker(End, syncId) || (e.Marker? && e.phase.Begin?) || e.Abandon?
  }

  /** Event `b` is a begin with this id that nothing has closed since. */
  ghost predicate OpenSince(run: seq<Event>, b: nat, syncId: Bytes) {
    && b < |run| && run[b] == Marker(Begin, syncId)
    && forall k :: b < k < |run| ==> !Closes(run[k], syncId)
  }

  /** What was named after event `b`. */
  function NamedSince(run: seq<Event>, b: nat): set<NotificationId> {
    set k | b < k < |run| && run[k].Upsert? :: run[k].id
  }

  lemma OpenSinceSnoc(run: seq<Event>, b: nat, syncId: Bytes)
    requires run != [] && b < |run| - 1
    ensures OpenSince(run, b, syncId) <==> OpenSince(run[..|run| - 1], b, syncId) && !Closes(run[|run| - 1], syncId)
    ensures NamedSince(run, b) == NamedSince(run[..|run| - 1], b)
            + (if run[|run| - 1].Upsert? then {run[|run| - 1].id} else {})
  {
    var before, n := run[..|run| - 1], |run| - 1;
    assert forall k :: 0 <= k < n ==> before[k] == run[k];
    assert OpenSince(run, b, syncId) ==> !Closes(run[n], syncId);
  }

  /** The machine holds a snapshot exactly when a begin is open, and holds its id and what it named. */
  lemma {:induction false} HoldsTheOpenSnapshot(run: seq<Event>, b: nat, syncId: Bytes)
    requires OpenSince(run, b, syncId)
    ensures Fed(run) == Some(Open(syncId, NamedSince(run, b)))
    decreases |run|
  {
    if b < |run| - 1 {
      OpenSinceSnoc(run, b, syncId);
      HoldsTheOpenSnapshot(run[..|run| - 1], b, syncId);
      assert NamedSince(run[..|run| - 1], b) + {} == NamedSince(run[..|run| - 1], b);
    } else {
      assert NamedSince(run, b) == {};
    }
  }

  lemma {:induction false} HeldWasOpened(run: seq<Event>)
    ensures Fed(run).Some? ==> exists b :: OpenSince(run, b, Fed(run).value.syncId)
  {
    if run != [] && Fed(run).Some? {
      var n, syncId := |run| - 1, Fed(run).value.syncId;
      HeldWasOpened(run[..n]);
      if run[n].Marker? && run[n].phase.Begin? {
        assert OpenSince(run, n, syncId);
      } else {
        var b :| OpenSince(run[..n], b, syncId);
        OpenSinceSnoc(run, b, syncId);
      }
    }
  }

  /** An end completes a snapshot exactly when the latest begin that was neither completed nor abandoned
      has the same id, and what it completes with is exactly what was named since that begin. */
  lemma CompletesExactly(run: seq<Event>, syncId: Bytes, named: set<NotificationId>)
    ensures Answer(Fed(run), Marker(End, syncId)) == Complete(named)
            <==> exists b :: OpenSince(run, b, syncId) && named == NamedSince(run, b)
  {
    HeldWasOpened(run);
    forall b: nat | OpenSince(run, b, syncId) ensures Fed(run) == Some(Open(syncId, NamedSince(run, b))) {
      HoldsTheOpenSnapshot(run, b, syncId);
    }
  }

  /** A completed or abandoned snapshot cannot be completed again: a further end is answered as unpaired. */
  lemma EndsOnce(run: seq<Event>, syncId: Bytes, more: Bytes)
    requires Answer(Fed(run), Marker(End, syncId)).Complete?
    ensures Answer(Fed(run + [Marker(End, syncId)]), Marker(End, more)) == Ignored(EndWithoutBegin)
  {
    assert (run + [Marker(End, syncId)])[..|run|] == run;
  }
}
