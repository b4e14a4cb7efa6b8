/** The toast notifications of main.js (showNotification). The document is
    reduced to the notifications attached to its body; timers become
    events: the 5000 ms auto-dismiss check and the 400 ms removal that
    follows a close click or an auto-dismiss. */
module Notifications {

  const AutoDismissMs := 5000
  const SlideOutMs := 400

  datatype Kind = Success | Error

  /** One notification element; `id` stands for the identity of the node
      that one call of showNotification creates. */
  datatype Notification = Notification(id: nat, message: string, kind: Kind)

  /** Whether the node `id` is attached (`notification.parentNode` is set). */
  predicate Attached(mounted: seq<Notification>, id: nat) {
    exists n :: n in mounted && n.id == id
  }

  /** `element.remove()` on the node `id`: it leaves the document, everything
      else stays; a node that is not attached leaves it unchanged. */
  function Detach(mounted: seq<Notification>, id: nat): (r: seq<Notification>)
    ensures forall n :: n in r <==> n in mounted && n.id != id
    ensures |r| <= |mounted|
    ensures (forall n :: n in mounted ==> n.id == id) ==> r == []
  {
    if mounted == [] then []
    else if mounted[0].id == id then Detach(mounted[1..], id)
    else [mounted[0]] + Detach(mounted[1..], id)
  }

  /** Removing a node that is not attached changes nothing. */
  lemma {:induction false} DetachAbsent(mounted: seq<Notification>, id: nat)
    requires !Attached(mounted, id)
    ensures Detach(mounted, id) == mounted
  {
    if mounted != [] {
      assert mounted[0] in mounted;
      assert !Attached(mounted[1..], id) by {
        forall n | n in mounted[1..] ensures n.id != id { assert n in mounted; }
      }
      DetachAbsent(mounted[1..], id);
      assert mounted == [mounted[0]] + mounted[1..];
    }
  }

  /** A second `remove()` of the same node is a no-op. */
  lemma DetachIdempotent(mounted: seq<Notification>, id: nat)
    ensures Detach(Detach(mounted, id), id) == Detach(mounted, id)
  {
  }

  /** The notification slot: the attached notifications in document order,
      the identity the next created node gets, and the pending 400 ms removal
      timers in the order they fire. */
  datatype Slot = Slot(mounted: seq<Notification>, nextId: nat, removals: seq<nat>)

  /** At most one notification is attached, and every attached one was
      created before. */
  predicate Inv(s: Slot) {
    |s.mounted| <= 1 && forall n :: n in s.mounted ==> n.id < s.nextId
  }

  /** showNotification(message, type): remove the notification found by
      `querySelector('.notification')`, if any, then append a new one. */
  function ShowStep(s: Slot, message: string, kind: Kind): (r: Slot)
    ensures r.nextId == s.nextId + 1 && r.removals == s.removals
    ensures Inv(s) ==> Inv(r) && r.mounted == [Notification(s.nextId, message, kind)]
  {
    var cleared := if s.mounted != [] then Detach(s.mounted, s.mounted[0].id) else s.mounted;
    Slot(cleared + [Notification(s.nextId, message, kind)], s.nextId + 1, s.removals)
  }

  /** A click on the close button: the removal is scheduled unconditionally. */
  function CloseStep(s: Slot, id: nat): (r: Slot)
    ensures r.mounted == s.mounted && r.nextId == s.nextId
    ensures r.removals == s.removals + [id]
  {
    s.(removals := s.removals + [id])
  }

  /** The 5000 ms timer: the removal is scheduled only while the node is
      still attached. */
  function AutoDismissStep(s: Slot, id: nat): (r: Slot)
    ensures !Attached(s.mounted, id) ==> r == s
    ensures Attached(s.mounted, id) ==> r == CloseStep(s, id)
  {
    if Attached(s.mounted, id) then s.(removals := s.removals + [id]) else s
  }

  /** The earliest pending 400 ms timer fires and removes its node. */
  function RemovalStep(s: Slot): (r: Slot)
    requires s.removals != []
    ensures Inv(s) ==> Inv(r)
    ensures !Attached(r.mounted, s.removals[0])
    ensures r.removals == s.removals[1..] && r.nextId == s.nextId
  {
    s.(mounted := Detach(s.mounted, s.removals[0]), removals := s.removals[1..])
  }

  /** Every pending removal timer fires, in order. */
  function FlushRemovals(s: Slot): (r: Slot)
    ensures r.removals == [] && r.nextId == s.nextId
    ensures Inv(s) ==> Inv(r)
    ensures forall n :: n in r.mounted <==> n in s.mounted && n.id !in s.removals
    ensures (forall n :: n in s.mounted ==> n.id in s.removals) ==> r.mounted == []
    decreases |s.removals|
  {
    if s.removals == [] then
      assert s.mounted != [] ==> s.mounted[0] in s.mounted;
      s
    else
      var next := RemovalStep(s);
      assert forall i :: i in s.removals <==> i == s.removals[0] || i in next.removals;
      FlushRemovals(next)
  }

  /** After a notification has been shown, its close click and its
      auto-dismiss may happen in either order before the removal timers
      fire; either way nothing stays attached. */
  lemma DismissRace(s: Slot, message: string, kind: Kind)
    requires Inv(s)
    ensures var shown := ShowStep(s, message, kind);
            var id := s.nextId;
            FlushRemovals(AutoDismissStep(CloseStep(shown, id), id)).mounted == []
            && FlushRemovals(CloseStep(AutoDismissStep(shown, id), id)).mounted == []
  {
    var shown := ShowStep(s, message, kind);
    var id := s.nextId;
    var one := FlushRemovals(AutoDismissStep(CloseStep(shown, id), id));
    var other := FlushRemovals(CloseStep(AutoDismissStep(shown, id), id));
  }

  /** When the close click has already removed the node, the later
      auto-dismiss finds it detached and changes nothing. */
  lemma LateAutoDismissIsNoOp(s: Slot, message: string, kind: Kind)
    requires Inv(s)
    ensures var closed := FlushRemovals(CloseStep(ShowStep(s, message, kind), s.nextId));
            closed.mounted == [] && AutoDismissStep(closed, s.nextId) == closed
  {
    var closed := FlushRemovals(CloseStep(ShowStep(s, message, kind), s.nextId));
  }

  /** A removal left over from a replaced notification never removes the
      notification that replaced it. */
  lemma StaleRemovalKeepsNewer(s: Slot, message: string, kind: Kind)
    requires Inv(s)
    requires forall i :: i in s.removals ==> i < s.nextId
    ensures var shown := ShowStep(s, message, kind);
            FlushRemovals(shown).mounted == shown.mounted
  {
    var shown := ShowStep(s, message, kind);
    var n := Notification(s.nextId, message, kind);
    var r := FlushRemovals(shown);
    assert n in r.mounted;
    assert |r.mounted| == 1;
    assert r.mounted[0] in r.mounted;
  }

  /** The document's notification slot, updated in place. */
  class NotificationCenter {
    var mounted: seq<Notification>
    var nextId: nat
    var removals: seq<nat>

    function State(): Slot
      reads this
    {
      Slot(mounted, nextId, removals)
    }

    ghost predicate Valid()
      reads this
    {
      Inv(State())
    }

    constructor ()
      ensures Valid() && State() == Slot([], 0, [])
    {
      mounted, nextId, removals := [], 0, [];
    }

    /** showNotification(message, kind); `n` is the node it mounts. */
    method Show(message: string, kind: Kind) returns (n: Notification)
      requires Valid()
      modifies this
      ensures Valid() && State() == ShowStep(old(State()), message, kind)
      ensures mounted == [n] && n == Notification(old(nextId), message, kind)
    {
      if mounted != [] {
        var existing := mounted[0];
        mounted := Detach(mounted, existing.id);
      }
      n := Notification(nextId, message, kind);
      nextId := nextId + 1;
      mounted := mounted + [n];
    }

    /** The close button of node `id` is clicked. */
    method CloseClicked(id: nat)
      requires Valid()
      modifies this
      ensures Valid() && State() == CloseStep(old(State()), id)
    {
      removals := removals + [id];
    }

    /** The 5000 ms timer of node `id` fires. */
    method AutoDismissFires(id: nat)
      requires Valid()
      modifies this
      ensures Valid() && State() == AutoDismissStep(old(State()), id)
    {
      if Attached(mounted, id) {
        removals := removals + [id];
      }
    }

    /** The earliest pending 400 ms removal timer fires. */
    method RemovalFires()
      requires Valid() && removals != []
      modifies this
      ensures Valid() && State() == RemovalStep(old(State()))
    {
      var id := removals[0];
      removals := removals[1..];
      mounted := Detach(mounted, id);
    }
  }
}
