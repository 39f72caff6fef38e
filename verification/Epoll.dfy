/** The event subscriptions of the proxy and the kernel interest list behind them. */
module Epoll {
  const FDEVENT_NONE: bv8 := 0
  const FDEVENT_IN: bv8 := 1
  const FDEVENT_OUT: bv8 := 4

  datatype CtlOp = CtlAdd | CtlMod | CtlDel

  predicate Wants(flags: bv8, flag: bv8) {
    flags & flag != FDEVENT_NONE
  }

  class Fdevents {
    /** Subscribed events by descriptor; the vector grows on demand. */
    var events: seq<bv8>
    /** What the kernel has been told. */
    var interest: map<nat, bv8>

    /** The kernel's list mirrors the flags: a descriptor is listed iff it wants something. */
    ghost predicate Valid()
      reads this
    {
      && (forall fd :: 0 <= fd < |events| ==> (fd in interest <==> events[fd] != FDEVENT_NONE))
      && (forall fd :: fd in interest ==> fd < |events| && interest[fd] == events[fd])
    }

    function Flags(fd: nat): bv8
      reads this
    {
      if fd < |events| then events[fd] else FDEVENT_NONE
    }

    function In(fd: nat): bool
      reads this
    {
      Wants(Flags(fd), FDEVENT_IN)
    }

    function Out(fd: nat): bool
      reads this
    {
      Wants(Flags(fd), FDEVENT_OUT)
    }

    constructor ()
      ensures Valid() && forall fd: nat :: Flags(fd) == FDEVENT_NONE
    {
      events := [];
      interest := map[];
    }

    /** get_fde: makes room for `fd`, new entries subscribe to nothing. */
    method GetFde(fd: nat)
      requires Valid()
      modifies this`events
      ensures Valid() && fd < |events|
      ensures forall x: nat :: Flags(x) == old(Flags(x))
    {
      while |events| <= fd
        invariant Valid()
        invariant forall x: nat :: Flags(x) == old(Flags(x))
        decreases fd - |events|
      {
        events := events + [FDEVENT_NONE];
      }
    }

    /** epoll_ctl: adding a listed descriptor, or changing or deleting an unlisted one, fails. */
    method EpollCtl(op: CtlOp, fd: nat, flags: bv8) returns (ret: int)
      modifies this`interest
      ensures ret == (if (fd in old(interest)) == (op != CtlAdd) then 0 else -1)
      ensures interest == (if ret == -1 then old(interest)
                           else if op == CtlDel then old(interest) - {fd}
                           else old(interest)[fd := flags])
    {
      if (fd in interest) != (op != CtlAdd) {
        return -1;
      }
      interest := if op == CtlDel then interest - {fd} else interest[fd := flags];
      ret := 0;
    }

    method Set(fd: nat, flags: bv8) returns (ret: int)
      requires Valid() && (flags == FDEVENT_IN || flags == FDEVENT_OUT)
      modifies this
      ensures Valid() && ret == 0
      ensures Flags(fd) == old(Flags(fd)) | flags
      ensures In(fd) == (old(In(fd)) || flags == FDEVENT_IN)
      ensures Out(fd) == (old(Out(fd)) || flags == FDEVENT_OUT)
      ensures forall x: nat :: x != fd ==> Flags(x) == old(Flags(x))
    {
      GetFde(fd);
      var s := events[fd];
      if s & flags != 0 {
        return 0;
      }
      var op := if s != FDEVENT_NONE then CtlMod else CtlAdd;
      events := events[fd := s | flags];
      ret := EpollCtl(op, fd, events[fd]);
    }

    method Clr(fd: nat, flags: bv8) returns (ret: int)
      requires Valid() && (flags == FDEVENT_IN || flags == FDEVENT_OUT)
      modifies this
      ensures Valid() && ret == 0
      ensures Flags(fd) == old(Flags(fd)) & !flags
      ensures In(fd) == (old(In(fd)) && flags == FDEVENT_OUT)
      ensures Out(fd) == (old(Out(fd)) && flags == FDEVENT_IN)
      ensures forall x: nat :: x != fd ==> Flags(x) == old(Flags(x))
    {
      GetFde(fd);
      var s := events[fd];
      if s & flags == 0 {
        return 0;
      }
      events := events[fd := s & !flags];
      var op := if events[fd] != FDEVENT_NONE then CtlMod else CtlDel;
      ret := EpollCtl(op, fd, events[fd]);
    }

    /** del: the flags are reset only if the kernel knew the descriptor. */
    method Del(fd: nat) returns (ret: int)
      requires Valid()
      modifies this
      ensures Valid() && Flags(fd) == FDEVENT_NONE && !In(fd) && !Out(fd)
      ensures forall x: nat :: x != fd ==> Flags(x) == old(Flags(x))
      ensures ret == 0 <==> old(Flags(fd)) != FDEVENT_NONE
    {
      ret := EpollCtl(CtlDel, fd, FDEVENT_NONE);
      if ret == -1 {
        return;
      }
      // the kernel listed the descriptor, so it has an entry
      events := events[fd := FDEVENT_NONE];
      ret := 0;
    }
  }
}
