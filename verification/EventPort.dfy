/** ae_evport.c under ae.c: which descriptors the event port watches, and which ones wait to be handed back to
    it, over any run of aeCreateFileEvent, aeDeleteFileEvent and aeApiPoll. */
module EventPort {
  import opened Bytes

  /** The bits AE_READABLE and AE_WRITABLE. */
  datatype Mask = Mask(readable: bool, writable: bool)

  const NONE: Mask := Mask(false, false)

  /** m | n */
  function Or(m: Mask, n: Mask): Mask { Mask(m.readable || n.readable, m.writable || n.writable) }

  /** m & n */
  function And(m: Mask, n: Mask): Mask { Mask(m.readable && n.readable, m.writable && n.writable) }

  /** m & ~n */
  function Minus(m: Mask, n: Mask): Mask { Mask(m.readable && !n.readable, m.writable && !n.writable) }

  const MAX_EVENT_BATCHSZ: nat := 512

  /** masks[fd] is what the loop has registered; fds and pending are the first npending entries of
      pending_fds and pending_masks; port is what the kernel holds, with the user pointer it was given. */
  datatype Loop = Loop(masks: seq<Mask>, fds: seq<int>, pending: seq<Mask>, port: map<int, Mask>)

  /** The first place of a descriptor among the pending ones, or -1. */
  function Lookup(fds: seq<int>, fd: int): (i: int)
    ensures -1 <= i < |fds|
    ensures i == -1 ==> fd !in fds
    ensures i != -1 ==> fds[i] == fd
    decreases |fds|
  {
    if fds == [] then -1
    else if fds[0] == fd then 0
    else var i := Lookup(fds[1..], fd); if i == -1 then -1 else i + 1
  }

  // ----- the three operations; `granted` is whether port_associate succeeds -----

  datatype Outcome = Done(loop: Loop) | Refused | Aborted

  function Create(l: Loop, fd: nat, mask: Mask, granted: bool): Outcome
    requires |l.fds| == |l.pending|
  {
    if fd >= |l.masks| then Refused
    else
      var full := Or(mask, l.masks[fd]);
      var p := Lookup(l.fds, fd);
      if p != -1 then
        Done(l.(pending := l.pending[p := Or(l.pending[p], full)], masks := l.masks[fd := Or(l.masks[fd], mask)]))
      else if granted then
        Done(l.(port := l.port[fd := full], masks := l.masks[fd := Or(l.masks[fd], mask)]))
      else Refused
  }

  function Delete(l: Loop, fd: nat, mask: Mask, granted: bool): Outcome
    requires |l.fds| == |l.pending|
  {
    if fd >= |l.masks| || l.masks[fd] == NONE then Done(l)
    else
      var rest := Minus(l.masks[fd], mask);
      var k := l.(masks := l.masks[fd := rest]);
      var p := Lookup(l.fds, fd);
      if p != -1 then
        var left := Minus(l.pending[p], mask);
        Done(k.(pending := l.pending[p := left], fds := if left == NONE then l.fds[p := -1] else l.fds))
      else if rest == NONE then (if fd in l.port then Done(k.(port := l.port - {fd})) else Aborted)
      else if granted then Done(k.(port := l.port[fd := rest]))
      else Aborted
  }

  /** The mask of one descriptor becomes another. */
  ghost predicate Masked(l: Loop, m: Loop, fd: nat, mask: Mask)
  {
    |m.masks| == |l.masks| && forall i :: 0 <= i < |l.masks| ==> m.masks[i] == if i == fd then mask else l.masks[i]
  }

  /** Adding and taking away events does just that, for the one descriptor. An addition is refused if and only if the
      descriptor is out of range, or is not pending and the port refuses it; a removal aborts only where the port
      refuses what is left, or has lost the descriptor. */
  lemma MasksChange(l: Loop, fd: nat, mask: Mask, granted: bool)
    requires |l.fds| == |l.pending|
    ensures var was := if fd < |l.masks| then l.masks[fd] else NONE;
      && (match Create(l, fd, mask, granted)
          case Done(m) => fd < |l.masks| && (fd in l.fds || granted)
            && Masked(l, m, fd, Mask(was.readable || mask.readable, was.writable || mask.writable))
          case Refused => fd >= |l.masks| || (fd !in l.fds && !granted)
          case Aborted => false)
      && (match Delete(l, fd, mask, granted)
          case Done(m) => Masked(l, m, fd, Mask(was.readable && !mask.readable, was.writable && !mask.writable))
          case Refused => false
          case Aborted => fd < |l.masks| && fd !in l.fds && (!granted || fd !in l.port))
  {
  }

  /** The pending descriptors go back to the port one by one. */
  function Restored(fds: seq<int>, pending: seq<Mask>, port: map<int, Mask>): map<int, Mask>
    requires |fds| == |pending|
    decreases |fds|
  {
    if fds == [] then port
    else Restored(fds[1..], pending[1..], if fds[0] == -1 then port else port[fds[0] := pending[0]])
  }

  /** What port_getn reports: a descriptor, the events that hold, and the user pointer. */
  datatype Report = Report(fd: int, events: Mask, user: Mask)

  /** The port reports what it holds, each association once, with none but the events asked for, and lets go
      of what it reports. `offers` is what happens outside. */
  function Taken(port: map<int, Mask>, offers: seq<(int, Mask)>, room: nat): (r: seq<Report>)
    ensures |r| <= room
    decreases |offers|
  {
    if offers == [] || room == 0 then []
    else
      var (fd, events) := offers[0];
      if fd in port then [Report(fd, And(events, port[fd]), port[fd])] + Taken(port - {fd}, offers[1..], room - 1)
      else Taken(port, offers[1..], room)
  }

  function FdsOf(r: seq<Report>): (s: seq<int>)
    ensures |s| == |r|
  {
    seq(|r|, i requires 0 <= i < |r| => r[i].fd)
  }

  function UsersOf(r: seq<Report>): (s: seq<Mask>)
    ensures |s| == |r|
  {
    seq(|r|, i requires 0 <= i < |r| => r[i].user)
  }

  ghost function Leaving(port: map<int, Mask>, r: seq<Report>): map<int, Mask>
  {
    map fd | fd in port && fd !in FdsOf(r) :: port[fd]
  }

  /** The state in which aeApiPoll calls port_getn. */
  function Waiting(l: Loop): Loop
    requires |l.fds| == |l.pending|
  {
    Loop(l.masks, [], [], Restored(l.fds, l.pending, l.port))
  }

  ghost function Polled(l: Loop, granted: bool, offers: seq<(int, Mask)>): Outcome
    requires |l.fds| == |l.pending|
  {
    if !granted && exists i :: 0 <= i < |l.fds| && l.fds[i] != -1 then Aborted
    else
      var port := Waiting(l).port;
      var r := Taken(port, offers, MAX_EVENT_BATCHSZ);
      Done(Loop(l.masks, FdsOf(r), UsersOf(r), Leaving(port, r)))
  }

  // ----- every registered descriptor is in one place, with its mask -----

  predicate Registered(l: Loop, fd: int) { 0 <= fd < |l.masks| && l.masks[fd] != NONE }

  ghost predicate PendingOk(l: Loop)
  {
    && |l.fds| == |l.pending| <= MAX_EVENT_BATCHSZ
    && (forall i, j :: 0 <= i < j < |l.fds| && l.fds[i] != -1 ==> l.fds[i] != l.fds[j])
    && (forall i :: 0 <= i < |l.fds| && l.fds[i] != -1 ==>
         Registered(l, l.fds[i]) && l.fds[i] !in l.port && l.pending[i] == l.masks[l.fds[i]])
  }

  ghost predicate PortOk(l: Loop)
  {
    forall fd :: fd in l.port ==> Registered(l, fd) && l.port[fd] == l.masks[fd]
  }

  ghost predicate Covered(l: Loop)
  {
    forall fd :: Registered(l, fd) ==> fd in l.port || fd in l.fds
  }

  ghost predicate Inv(l: Loop) { PendingOk(l) && PortOk(l) && Covered(l) }

  /** The invariant as the heading of the file puts it. */
  lemma EitherOr(l: Loop, fd: int)
    requires Inv(l) && fd >= 0
    ensures Registered(l, fd) <==> fd in l.port || fd in l.fds
    ensures !(fd in l.port && fd in l.fds)
    ensures fd in l.port ==> l.port[fd] == l.masks[fd]
    ensures forall i, j :: 0 <= i < j < |l.fds| && l.fds[i] == fd ==> l.fds[j] != fd
    ensures forall i :: 0 <= i < |l.fds| && l.fds[i] == fd ==> l.pending[i] == l.masks[fd]
  {
    if fd in l.fds {
      var i :| 0 <= i < |l.fds| && l.fds[i] == fd;
    }
  }

  lemma MoreToWatch(l: Loop, fd: nat, p: nat, rest: Mask)
    requires Inv(l) && Registered(l, fd) && p < |l.fds| && l.fds[p] == fd && rest != NONE
    ensures Inv(l.(masks := l.masks[fd := rest], pending := l.pending[p := rest]))
  {
    var o := l.(masks := l.masks[fd := rest], pending := l.pending[p := rest]);
    forall k | Registered(o, k) ensures k in o.port || k in o.fds { assert k == fd || Registered(l, k); }
  }

  lemma NothingToWatch(l: Loop, fd: nat, p: nat)
    requires Inv(l) && Registered(l, fd) && p < |l.fds| && l.fds[p] == fd
    ensures Inv(l.(masks := l.masks[fd := NONE], fds := l.fds[p := -1], pending := l.pending[p := NONE]))
  {
    var o := l.(masks := l.masks[fd := NONE], fds := l.fds[p := -1], pending := l.pending[p := NONE]);
    forall k | Registered(o, k) ensures k in o.port || k in o.fds {
      assert Registered(l, k);
      if k !in l.port {
        var i :| 0 <= i < |l.fds| && l.fds[i] == k;
        assert o.fds[i] == k;
      }
    }
  }

  lemma DeletePendingKeeps(l: Loop, fd: nat, mask: Mask, granted: bool)
    requires Inv(l) && Registered(l, fd) && Lookup(l.fds, fd) != -1
    ensures Delete(l, fd, mask, granted).Done? && Inv(Delete(l, fd, mask, granted).loop)
  {
    var p := Lookup(l.fds, fd);
    assert l.pending[p] == l.masks[fd];
    hide Inv;
    if Minus(l.masks[fd], mask) == NONE { NothingToWatch(l, fd, p); }
    else { MoreToWatch(l, fd, p, Minus(l.masks[fd], mask)); }
  }

  lemma AssociatedKeeps(l: Loop, fd: nat, rest: Mask)
    requires Inv(l) && fd < |l.masks| && fd !in l.fds && rest != NONE
    ensures Inv(l.(masks := l.masks[fd := rest], port := l.port[fd := rest]))
  {
    var o := l.(masks := l.masks[fd := rest], port := l.port[fd := rest]);
    forall k | Registered(o, k) ensures k in o.port || k in o.fds { assert k == fd || Registered(l, k); }
  }

  lemma DissociatedKeeps(l: Loop, fd: nat)
    requires Inv(l) && fd < |l.masks| && fd !in l.fds
    ensures Inv(l.(masks := l.masks[fd := NONE], port := l.port - {fd}))
  {
    var o := l.(masks := l.masks[fd := NONE], port := l.port - {fd});
    forall k | Registered(o, k) ensures k in o.port || k in o.fds { assert Registered(l, k); }
  }

  lemma CreateKeeps(l: Loop, fd: nat, mask: Mask, granted: bool)
    requires Inv(l) && mask != NONE
    ensures Create(l, fd, mask, granted).Done? ==> Inv(Create(l, fd, mask, granted).loop)
  {
    if Create(l, fd, mask, granted).Done? {
      var p := Lookup(l.fds, fd);
      var full := Or(l.masks[fd], mask);
      if p != -1 {
        assert l.pending[p] == l.masks[fd];
        hide Inv;
        MoreToWatch(l, fd, p, full);
      } else {
        hide Inv;
        AssociatedKeeps(l, fd, full);
      }
    }
  }

  lemma DeleteAssociatedKeeps(l: Loop, fd: nat, mask: Mask, granted: bool)
    requires Inv(l) && Registered(l, fd) && Lookup(l.fds, fd) == -1
    ensures Delete(l, fd, mask, granted).Aborted? <==> !granted && Minus(l.masks[fd], mask) != NONE
    ensures Delete(l, fd, mask, granted).Done? ==> Inv(Delete(l, fd, mask, granted).loop)
  {
    assert fd in l.port;
    hide Inv;
    if Minus(l.masks[fd], mask) == NONE { DissociatedKeeps(l, fd); }
    else { AssociatedKeeps(l, fd, Minus(l.masks[fd], mask)); }
  }

  /** A deletion aborts only when the port refuses a new association: port_dissociate never fails. */
  lemma DeleteKeeps(l: Loop, fd: nat, mask: Mask, granted: bool)
    requires Inv(l)
    ensures var o := Delete(l, fd, mask, granted);
      && !o.Refused? && (o.Done? ==> Inv(o.loop))
      && (o.Aborted? <==> !granted && Registered(l, fd) && fd !in l.fds && Minus(l.masks[fd], mask) != NONE)
  {
    if Registered(l, fd) {
      hide Inv;
      if Lookup(l.fds, fd) != -1 { DeletePendingKeeps(l, fd, mask, granted); }
      else { DeleteAssociatedKeeps(l, fd, mask, granted); }
    }
  }

  // ----- polling -----

  lemma {:induction false} RestoredIs(fds: seq<int>, pending: seq<Mask>, port: map<int, Mask>)
    requires |fds| == |pending|
    requires forall i, j :: 0 <= i < j < |fds| && fds[i] != -1 ==> fds[i] != fds[j]
    ensures forall fd :: fd in Restored(fds, pending, port) <==> fd in port || (fd != -1 && fd in fds)
    ensures forall i :: 0 <= i < |fds| && fds[i] != -1 ==> Restored(fds, pending, port)[fds[i]] == pending[i]
    ensures forall fd :: fd in port && fd !in fds ==> Restored(fds, pending, port)[fd] == port[fd]
    decreases |fds|
  {
    if fds != [] {
      var next := if fds[0] == -1 then port else port[fds[0] := pending[0]];
      RestoredIs(fds[1..], pending[1..], next);
      assert forall fd :: fd in fds <==> fd == fds[0] || fd in fds[1..];
      forall i | 0 <= i < |fds| && fds[i] != -1
        ensures fds[i] in Restored(fds, pending, port) && Restored(fds, pending, port)[fds[i]] == pending[i]
      {
        if i > 0 { assert fds[1..][i - 1] == fds[i] && pending[1..][i - 1] == pending[i]; }
      }
    }
  }

  /** Whenever the port is asked for events, it holds exactly what is registered. */
  lemma PortIsRegistered(l: Loop)
    requires Inv(l)
    ensures Waiting(l).port == map fd | 0 <= fd < |l.masks| && l.masks[fd] != NONE :: l.masks[fd]
  {
    RestoredIs(l.fds, l.pending, l.port);
    var port := Waiting(l).port;
    forall fd | fd in port ensures Registered(l, fd) && port[fd] == l.masks[fd] {
      if fd != -1 && fd in l.fds {
        var i :| 0 <= i < |l.fds| && l.fds[i] == fd;
      }
    }
    forall fd | Registered(l, fd) ensures fd in port {
    }
  }

  /** Each association is reported at most once, with its user pointer and no event it did not ask for. */
  ghost predicate Faithful(port: map<int, Mask>, r: seq<Report>)
  {
    && (forall i :: 0 <= i < |r| ==>
         r[i].fd in port && r[i].user == port[r[i].fd] && Minus(r[i].events, r[i].user) == NONE)
    && (forall i, j :: 0 <= i < j < |r| ==> r[i].fd != r[j].fd)
  }

  lemma {:induction false} TakenIs(port: map<int, Mask>, offers: seq<(int, Mask)>, room: nat)
    ensures Faithful(port, Taken(port, offers, room))
    decreases |offers|
  {
    if offers != [] && room != 0 {
      var (fd, events) := offers[0];
      if fd in port {
        TakenIs(port - {fd}, offers[1..], room - 1);
        assert Taken(port, offers, room)
            == [Report(fd, And(events, port[fd]), port[fd])] + Taken(port - {fd}, offers[1..], room - 1);
      } else {
        TakenIs(port, offers[1..], room);
        assert Taken(port, offers, room) == Taken(port, offers[1..], room);
      }
    }
  }

  /** What happens to a descriptor first. */
  function Offered(offers: seq<(int, Mask)>, fd: int): Option<Mask>
  {
    if offers == [] then None else if offers[0].0 == fd then Some(offers[0].1) else Offered(offers[1..], fd)
  }

  /** Nothing that happens to an associated descriptor is left out while there is room. */
  lemma {:induction false} TakenAll(port: map<int, Mask>, offers: seq<(int, Mask)>, room: nat, fd: int)
    requires fd in port
    ensures var r := Taken(port, offers, room);
      && (|r| < room && Offered(offers, fd).Some? ==> fd in FdsOf(r))
      && (forall x :: x in r && x.fd == fd ==>
        Offered(offers, fd).Some? && x.events == And(Offered(offers, fd).value, port[fd]))
    decreases |offers|
  {
    if offers != [] && room != 0 {
      var (f, events) := offers[0];
      if f in port {
        var first, rest := Report(f, And(events, port[f]), port[f]), Taken(port - {f}, offers[1..], room - 1);
        TakenIs(port, offers, room);
        assert Taken(port, offers, room) == [first] + rest;
        assert FdsOf([first] + rest) == [f] + FdsOf(rest);
        if f == fd {
          assert FdsOf([first] + rest)[0] == fd;
        } else {
          TakenAll(port - {f}, offers[1..], room - 1, fd);
        }
      } else {
        TakenAll(port, offers[1..], room, fd);
        assert Taken(port, offers, room) == Taken(port, offers[1..], room);
      }
    }
  }

  lemma ReportedKeeps(masks: seq<Mask>, port: map<int, Mask>, r: seq<Report>)
    requires port == map fd | 0 <= fd < |masks| && masks[fd] != NONE :: masks[fd]
    requires |r| <= MAX_EVENT_BATCHSZ && Faithful(port, r)
    ensures Inv(Loop(masks, FdsOf(r), UsersOf(r), Leaving(port, r)))
  {
    var l := Loop(masks, FdsOf(r), UsersOf(r), Leaving(port, r));
    forall i | 0 <= i < |l.fds|
      ensures Registered(l, l.fds[i]) && l.fds[i] !in l.port && l.pending[i] == masks[l.fds[i]] {
      assert l.fds[i] == r[i].fd && l.fds[i] in FdsOf(r);
    }
    forall fd | Registered(l, fd) ensures fd in l.port || fd in l.fds { assert fd in port; }
  }

  lemma PollKeeps(l: Loop, granted: bool, offers: seq<(int, Mask)>)
    requires Inv(l)
    ensures Polled(l, granted, offers).Done? ==> Inv(Polled(l, granted, offers).loop)
  {
    PortIsRegistered(l);
    TakenIs(Waiting(l).port, offers, MAX_EVENT_BATCHSZ);
    ReportedKeeps(l.masks, Waiting(l).port, Taken(Waiting(l).port, offers, MAX_EVENT_BATCHSZ));
  }

  /** Events are reported for registered descriptors only, and only those that were asked for. */
  lemma ReportsAreWanted(l: Loop, offers: seq<(int, Mask)>)
    requires Inv(l)
    ensures forall r :: r in Taken(Waiting(l).port, offers, MAX_EVENT_BATCHSZ) ==>
      Registered(l, r.fd) && Minus(r.events, l.masks[r.fd]) == NONE
  {
    PortIsRegistered(l);
    TakenIs(Waiting(l).port, offers, MAX_EVENT_BATCHSZ);
  }

  /** A poll fires each registered descriptor that something happens to, with the events asked for,
      and no descriptor twice; it leaves some out only where a full batch is fired. */
  ghost predicate Fires(masks: seq<Mask>, offers: seq<(int, Mask)>, fds: seq<int>, events: seq<Mask>)
    requires |fds| == |events|
  {
    && (forall i :: 0 <= i < |fds| ==>
      && 0 <= fds[i] < |masks| && masks[fds[i]] != NONE && Offered(offers, fds[i]).Some?
      && events[i] == And(Offered(offers, fds[i]).value, masks[fds[i]]))
    && (forall i, j :: 0 <= i < j < |fds| ==> fds[i] != fds[j])
    && (|fds| == MAX_EVENT_BATCHSZ || forall fd ::
      0 <= fd < |masks| && masks[fd] != NONE && Offered(offers, fd).Some? ==> fd in fds)
  }

  function EventsOf(r: seq<Report>): (s: seq<Mask>)
    ensures |s| == |r|
  {
    seq(|r|, i requires 0 <= i < |r| => r[i].events)
  }

  lemma PollFires(l: Loop, offers: seq<(int, Mask)>)
    requires Inv(l)
    ensures var r := Taken(Waiting(l).port, offers, MAX_EVENT_BATCHSZ);
      Fires(l.masks, offers, FdsOf(r), EventsOf(r))
  {
    var port := Waiting(l).port;
    var r := Taken(port, offers, MAX_EVENT_BATCHSZ);
    PortIsRegistered(l);
    hide Restored, Taken, PendingOk, PortOk, Covered;
    TakenIs(port, offers, MAX_EVENT_BATCHSZ);
    forall i | 0 <= i < |r|
      ensures Offered(offers, r[i].fd).Some? && r[i].events == And(Offered(offers, r[i].fd).value, port[r[i].fd])
    {
      assert r[i] in r;
      TakenAll(port, offers, MAX_EVENT_BATCHSZ, r[i].fd);
    }
    forall fd | fd in port && |r| < MAX_EVENT_BATCHSZ && Offered(offers, fd).Some? ensures fd in FdsOf(r) {
      TakenAll(port, offers, MAX_EVENT_BATCHSZ, fd);
    }
  }

  // ----- all runs -----

  datatype Event =
    | CreateEvent(fd: nat, mask: Mask, granted: bool)
    | DeleteEvent(fd: nat, mask: Mask, granted: bool)
    | Poll(granted: bool, offers: seq<(int, Mask)>)

  /** A file event is created for some event. */
  predicate Proper(e: Event) { e.CreateEvent? ==> e.mask != NONE }

  ghost function Step(l: Loop, e: Event): Outcome
    requires |l.fds| == |l.pending|
  {
    match e
    case CreateEvent(fd, mask, granted) => Create(l, fd, mask, granted)
    case DeleteEvent(fd, mask, granted) => Delete(l, fd, mask, granted)
    case Poll(granted, offers) => Polled(l, granted, offers)
  }

  lemma StepKeeps(l: Loop, e: Event)
    requires Inv(l) && Proper(e)
    ensures Step(l, e).Done? ==> Inv(Step(l, e).loop)
  {
    hide Create, Delete, Polled, Inv;
    assert |l.fds| == |l.pending| by { SameLength(l); }
    match e
    case CreateEvent(fd, mask, granted) => CreateKeeps(l, fd, mask, granted);
    case DeleteEvent(fd, mask, granted) => DeleteKeeps(l, fd, mask, granted);
    case Poll(granted, offers) => PollKeeps(l, granted, offers);
  }

  lemma SameLength(l: Loop)
    requires Inv(l)
    ensures |l.fds| == |l.pending|
  {
  }

  /** A run: refused calls change nothing, an abort ends it. */
  ghost predicate Reaches(l: Loop, events: seq<Event>, m: Loop)
    decreases |events|
  {
    if events == [] then m == l
    else
      |l.fds| == |l.pending| && Proper(events[0]) &&
      match Step(l, events[0])
      case Done(k) => Reaches(k, events[1..], m)
      case Refused => Reaches(l, events[1..], m)
      case Aborted => false
  }

  ghost function Start(size: nat): Loop { Loop(seq(size, _ => NONE), [], [], map[]) }

  lemma {:induction false} RunKeeps(l: Loop, events: seq<Event>, m: Loop)
    requires Inv(l) && Reaches(l, events, m)
    ensures Inv(m)
    decreases |events|
  {
    hide Inv, Step;
    if events != [] {
      StepKeeps(l, events[0]);
      match Step(l, events[0])
      case Done(k) => RunKeeps(k, events[1..], m);
      case Refused => RunKeeps(l, events[1..], m);
    }
  }

  /** In every reachable state each registered descriptor is either with the port or in one pending slot, never
      both, and with its registered mask. */
  lemma AlwaysEitherOr(size: nat, events: seq<Event>, m: Loop, fd: int)
    requires Reaches(Start(size), events, m) && fd >= 0
    ensures |m.fds| == |m.pending|
    ensures Registered(m, fd) <==> fd in m.port || fd in m.fds
    ensures !(fd in m.port && fd in m.fds)
    ensures fd in m.port ==> m.port[fd] == m.masks[fd]
    ensures forall i, j :: 0 <= i < j < |m.fds| && m.fds[i] == fd ==> m.fds[j] != fd
    ensures forall i :: 0 <= i < |m.fds| && m.fds[i] == fd ==> m.pending[i] == m.masks[fd]
  {
    assert Inv(Start(size));
    RunKeeps(Start(size), events, m);
    EitherOr(m, fd);
  }
}
