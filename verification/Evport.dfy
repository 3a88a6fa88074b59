/** ae_evport.c and the part of ae.c above it: the arrays of the event loop, changed in place. */
module Evport {
  import opened EventPort

  /** Distinct descriptors below a bound are no more than the bound. */
  lemma {:induction false} DistinctFit(fds: seq<int>, size: nat)
    requires forall i, j :: 0 <= i < j < |fds| ==> fds[i] != fds[j]
    requires forall i :: 0 <= i < |fds| ==> 0 <= fds[i] < size
    ensures |fds| <= size
    decreases size
  {
    if fds == [] {
    } else if size - 1 in fds {
      var k :| 0 <= k < |fds| && fds[k] == size - 1;
      var rest := fds[..k] + fds[k + 1..];
      DistinctFit(rest, size - 1);
    } else {
      assert 0 <= fds[0] < size;
      forall i | 0 <= i < |fds| ensures fds[i] < size - 1 { assert fds[i] in fds; }
      DistinctFit(fds, size - 1);
    }
  }

  /** So what a poll reports fits in `fired`, which has an entry for every descriptor. */
  lemma FiredFits(l: Loop, offers: seq<(int, Mask)>)
    requires Inv(l)
    ensures |Taken(Waiting(l).port, offers, MAX_EVENT_BATCHSZ)| <= |l.masks|
  {
    PortIsRegistered(l);
    hide Taken, Waiting, Inv;
    var r := Taken(Waiting(l).port, offers, MAX_EVENT_BATCHSZ);
    TakenIs(Waiting(l).port, offers, MAX_EVENT_BATCHSZ);
    DistinctFit(FdsOf(r), |l.masks|);
  }

  class EventLoop {
    const masks: array<Mask>
    const firedFds: array<int>
    const firedMasks: array<Mask>
    var maxfd: int
    var npending: nat
    const pendingFds: array<int>
    const pendingMasks: array<Mask>
    /** The kernel's side of the port. */
    var port: map<int, Mask>

    ghost predicate Separate()
      reads this
    {
      && masks.Length == firedFds.Length == firedMasks.Length
      && pendingFds.Length == pendingMasks.Length == MAX_EVENT_BATCHSZ
      && npending <= MAX_EVENT_BATCHSZ
      && masks != firedMasks && masks != pendingMasks && firedMasks != pendingMasks && firedFds != pendingFds
    }

    ghost function View(): Loop
      requires Separate()
      reads this, masks, pendingFds, pendingMasks
    {
      Loop(masks[..], pendingFds[..npending], pendingMasks[..npending], port)
    }

    /** maxfd is the highest registered descriptor. */
    ghost predicate MaxOk()
      reads this, masks
    {
      && -1 <= maxfd < masks.Length
      && (maxfd >= 0 ==> masks[maxfd] != NONE)
      && (forall fd :: maxfd < fd < masks.Length ==> masks[fd] == NONE)
    }

    ghost predicate Valid()
      reads this, masks, pendingFds, pendingMasks
    {
      Separate() && Inv(View()) && MaxOk()
    }

    /** aeCreateEventLoop and aeApiCreate */
    constructor (setsize: nat)
      ensures Valid() && View() == Start(setsize)
      ensures fresh(masks) && fresh(firedFds) && fresh(firedMasks) && fresh(pendingFds) && fresh(pendingMasks)
    {
      masks := new Mask[setsize](_ => NONE);
      firedFds := new int[setsize];
      firedMasks := new Mask[setsize];
      maxfd, npending, port := -1, 0, map[];
      pendingFds := new int[MAX_EVENT_BATCHSZ](_ => -1);
      pendingMasks := new Mask[MAX_EVENT_BATCHSZ](_ => NONE);
      new;
      assert masks[..] == Start(setsize).masks;
    }

    /** aeApiLookupPending */
    method LookupPending(fd: int) returns (p: int)
      requires Separate()
      ensures p == Lookup(pendingFds[..npending], fd)
    {
      var i := 0;
      while i < npending
        invariant i <= npending
        invariant Lookup(pendingFds[..npending], fd) ==
          var q := Lookup(pendingFds[i..npending], fd); if q == -1 then -1 else q + i
      {
        assert pendingFds[i..npending][1..] == pendingFds[i + 1..npending];
        if pendingFds[i] == fd { return i; }
        i := i + 1;
      }
      return -1;
    }

    /** aeApiAssociate: port_associate replaces what the descriptor is watched for, unless it fails. */
    method Associate(fd: int, mask: Mask, granted: bool) returns (rv: int)
      modifies `port
      ensures rv == if granted then 0 else -1
      ensures port == if granted then old(port)[fd := mask] else old(port)
    {
      if !granted { return -1; }
      port := port[fd := mask];
      return 0;
    }

    /** aeApiAddEvent */
    method AddEvent(fd: nat, mask: Mask, granted: bool) returns (rv: int)
      requires Separate() && fd < masks.Length
      modifies `port, pendingMasks
      ensures Separate()
      ensures rv == 0 || rv == -1
      ensures match Create(old(View()), fd, mask, granted)
        case Done(l) => rv == 0 && View() == l.(masks := masks[..])
        case _ => rv == -1 && View() == old(View())
    {
      ghost var was := pendingMasks[..npending];
      var fullmask := Or(mask, masks[fd]);
      var pfd := LookupPending(fd);
      if pfd != -1 {
        pendingMasks[pfd] := Or(pendingMasks[pfd], fullmask);
        assert pendingMasks[..npending] == was[pfd := Or(was[pfd], fullmask)];
        return 0;
      }
      rv := Associate(fd, fullmask, granted);
    }

    /** aeCreateFileEvent */
    method CreateFileEvent(fd: nat, mask: Mask, granted: bool) returns (ok: bool)
      requires Valid() && mask != NONE
      modifies `port, `maxfd, masks, pendingMasks
      ensures Valid()
      ensures match Create(old(View()), fd, mask, granted)
        case Done(l) => ok && View() == l
        case _ => !ok && View() == old(View())
    {
      ghost var l := View();
      CreateKeeps(l, fd, mask, granted);
      if fd >= masks.Length { return false; }
      hide Inv;
      var rv := AddEvent(fd, mask, granted);
      if rv == -1 { return false; }
      masks[fd] := Or(masks[fd], mask);
      assert masks[..] == l.masks[fd := Or(l.masks[fd], mask)];
      if fd > maxfd { maxfd := fd; }
      return true;
    }

    /** aeApiDelEvent, called with the event already taken out of the loop's own mask. */
    method DelEvent(fd: nat, mask: Mask, granted: bool) returns (aborted: bool)
      requires Separate() && fd < masks.Length
      modifies `port, pendingFds, pendingMasks
      ensures Separate()
      ensures var p := Lookup(old(View()).fds, fd); var l := old(View());
        if p != -1 then
          var left := Minus(l.pending[p], mask);
          var fds := if left == NONE then l.fds[p := -1] else l.fds;
          !aborted && View() == l.(pending := l.pending[p := left], fds := fds)
        else if masks[fd] == NONE then
          aborted == (fd !in l.port) && (!aborted ==> View() == l.(port := l.port - {fd}))
        else aborted == !granted && (!aborted ==> View() == l.(port := l.port[fd := masks[fd]]))
    {
      ghost var l := View();
      var pfd := LookupPending(fd);
      if pfd != -1 {
        pendingMasks[pfd] := Minus(pendingMasks[pfd], mask);
        assert pendingMasks[..npending] == l.pending[pfd := Minus(l.pending[pfd], mask)];
        if pendingMasks[pfd] == NONE {
          pendingFds[pfd] := -1;
          assert pendingFds[..npending] == l.fds[pfd := -1];
        }
        return false;
      }
      var fullmask := masks[fd];
      if fullmask == NONE {
        if fd !in port { return true; }
        port := port - {fd};
        return false;
      }
      var rv := Associate(fd, fullmask, granted);
      return rv != 0;
    }

    /** aeDeleteFileEvent */
    method DeleteFileEvent(fd: nat, mask: Mask, granted: bool) returns (aborted: bool)
      requires Valid()
      modifies `port, `maxfd, masks, pendingFds, pendingMasks
      ensures aborted <==> Delete(old(View()), fd, mask, granted).Aborted?
      ensures !aborted ==> Valid() && Delete(old(View()), fd, mask, granted) == Done(View())
    {
      ghost var l := View();
      DeleteKeeps(l, fd, mask, granted);
      hide Inv;
      if fd >= masks.Length { return false; }
      if masks[fd] == NONE { return false; }
      masks[fd] := Minus(masks[fd], mask);
      assert masks[..] == l.masks[fd := Minus(l.masks[fd], mask)];
      if fd == maxfd && masks[fd] == NONE { LowerMax(); }
      aborted := DelEvent(fd, mask, granted);
    }

    /** The highest registered descriptor below the one that has gone. */
    method LowerMax()
      requires 0 <= maxfd < masks.Length
      requires forall fd :: maxfd <= fd < masks.Length ==> masks[fd] == NONE
      modifies `maxfd
      ensures MaxOk()
    {
      var j := maxfd - 1;
      while j >= 0 && masks[j] == NONE
        invariant -1 <= j < masks.Length
        invariant forall fd :: j < fd < masks.Length ==> masks[fd] == NONE
        decreases j
      {
        j := j - 1;
      }
      maxfd := j;
    }

    /** The first loop of aeApiPoll: what was pending goes back to the port. */
    method Restore(granted: bool) returns (aborted: bool)
      requires Separate() && PendingOk(View())
      modifies `port, `npending, pendingFds, pendingMasks
      ensures aborted <==> !granted && exists i :: 0 <= i < |old(View()).fds| && old(View()).fds[i] != -1
      ensures Separate() && (!aborted ==> View() == Waiting(old(View())))
    {
      ghost var l := View();
      var i := 0;
      while i < npending
        invariant i <= npending == |l.fds| && Separate()
        invariant masks[..] == l.masks
        invariant pendingFds[i..npending] == l.fds[i..] && pendingMasks[i..npending] == l.pending[i..]
        invariant Restored(l.fds[i..], l.pending[i..], port) == Restored(l.fds, l.pending, l.port)
        invariant !granted ==> forall k :: 0 <= k < i ==> l.fds[k] == -1
      {
        assert l.fds[i..][1..] == l.fds[i + 1..] && l.pending[i..][1..] == l.pending[i + 1..];
        assert pendingFds[i] == pendingFds[i..npending][0] == l.fds[i];
        assert pendingMasks[i] == pendingMasks[i..npending][0] == l.pending[i];
        ghost var fds, pms := pendingFds[i + 1..npending], pendingMasks[i + 1..npending];
        assert fds == pendingFds[i..npending][1..] && pms == pendingMasks[i..npending][1..];
        if pendingFds[i] != -1 {
          var rv := Associate(pendingFds[i], pendingMasks[i], granted);
          if rv != 0 { return true; }
          pendingMasks[i] := NONE;
          pendingFds[i] := -1;
          assert pendingFds[i + 1..npending] == fds && pendingMasks[i + 1..npending] == pms;
        }
        i := i + 1;
      }
      npending := 0;
      return false;
    }

    /** port_getn */
    method GetN(offers: seq<(int, Mask)>) returns (event: seq<Report>)
      modifies `port
      ensures event == Taken(old(port), offers, MAX_EVENT_BATCHSZ)
      ensures port == Leaving(old(port), event)
    {
      event := Taken(port, offers, MAX_EVENT_BATCHSZ);
      port := map fd | fd in port && fd !in FdsOf(event) :: port[fd];
    }

    /** The second loop of aeApiPoll: what is reported becomes pending. */
    method Note(event: seq<Report>)
      requires Separate() && |event| <= MAX_EVENT_BATCHSZ && |event| <= masks.Length
      modifies `npending, pendingFds, pendingMasks, firedFds, firedMasks
      ensures Separate() && View() == Loop(old(masks[..]), FdsOf(event), UsersOf(event), port)
      ensures forall i :: 0 <= i < |event| ==> firedFds[i] == event[i].fd && firedMasks[i] == event[i].events
    {
      npending := |event|;
      var i := 0;
      while i < |event|
        invariant i <= |event| == npending && Separate()
        invariant masks[..] == old(masks[..])
        invariant forall k :: 0 <= k < i ==> firedFds[k] == event[k].fd && firedMasks[k] == event[k].events
        invariant forall k :: 0 <= k < i ==> pendingFds[k] == event[k].fd && pendingMasks[k] == event[k].user
      {
        firedFds[i] := event[i].fd;
        firedMasks[i] := event[i].events;
        pendingFds[i] := event[i].fd;
        pendingMasks[i] := event[i].user;
        i := i + 1;
      }
      assert pendingFds[..npending] == FdsOf(event) && pendingMasks[..npending] == UsersOf(event);
    }

    /** aeApiPoll */
    method ApiPoll(granted: bool, offers: seq<(int, Mask)>) returns (nevents: nat, aborted: bool)
      requires Valid()
      modifies `port, `npending, pendingFds, pendingMasks, firedFds, firedMasks
      ensures aborted <==> Polled(old(View()), granted, offers).Aborted?
      ensures !aborted ==> Valid() && Polled(old(View()), granted, offers) == Done(View())
      ensures !aborted ==>
        nevents <= masks.Length && Fires(masks[..], offers, firedFds[..nevents], firedMasks[..nevents])
    {
      ghost var l := View();
      PollKeeps(l, granted, offers);
      FiredFits(l, offers);
      PollFires(l, offers);
      nevents := 0;
      aborted := Restore(granted);
      if aborted { return; }
      hide Inv, PendingOk, Taken, Restored;
      var event := GetN(offers);
      nevents := |event|;
      Note(event);
      assert firedFds[..nevents] == FdsOf(event) && firedMasks[..nevents] == EventsOf(event);
    }
  }
}
