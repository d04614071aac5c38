/** The GPIO interrupt driver: the registry's tables and the registers of ports 1 and 2. */
module GpioDriver {
  import opened Words
  import opened Gpio

  class Interrupts {
    const p1Cbs: array<Option<Callback>>
    const p2Cbs: array<Option<Callback>>
    const p1Exit: array<byte>
    const p2Exit: array<byte>
    var p1ActiveLow: bv8
    var p2ActiveLow: bv8

    var p1Out: bv8
    var p1Ies: bv8
    var p1Dir: bv8
    var p1Ren: bv8
    var p1Ifg: bv8
    var p1Ie: bv8
    var p2Out: bv8
    var p2Ies: bv8
    var p2Dir: bv8
    var p2Ren: bv8
    var p2Ifg: bv8
    var p2Ie: bv8

    predicate Valid() {
      && p1Cbs != p2Cbs && p1Exit != p2Exit
      && p1Cbs.Length == p2Cbs.Length == p1Exit.Length == p2Exit.Length == 8
    }

    ghost function Port1(): Port
      reads this`p1ActiveLow, this`p1Out, this`p1Ies, this`p1Dir, this`p1Ren, this`p1Ifg, this`p1Ie, p1Cbs, p1Exit
    {
      Port(p1Cbs[..], p1Exit[..], p1ActiveLow, p1Out, p1Ies, p1Dir, p1Ren, p1Ifg, p1Ie)
    }

    ghost function Port2(): Port
      reads this`p2ActiveLow, this`p2Out, this`p2Ies, this`p2Dir, this`p2Ren, this`p2Ifg, this`p2Ie, p2Cbs, p2Exit
    {
      Port(p2Cbs[..], p2Exit[..], p2ActiveLow, p2Out, p2Ies, p2Dir, p2Ren, p2Ifg, p2Ie)
    }

    ghost function Now(): Registry
      reads this, p1Cbs, p2Cbs, p1Exit, p2Exit
    {
      Registry(Port1(), Port2())
    }

    constructor ()
      ensures Valid() && fresh(p1Cbs) && fresh(p2Cbs) && fresh(p1Exit) && fresh(p2Exit)
    {
      p1Cbs := new Option<Callback>[8](_ => None);
      p2Cbs := new Option<Callback>[8](_ => None);
      p1Exit := new byte[8](_ => EXIT_NONE);
      p2Exit := new byte[8](_ => EXIT_NONE);
      p1ActiveLow, p2ActiveLow := 0, 0;
      p1Out, p1Ies, p1Dir, p1Ren, p1Ifg, p1Ie := *, *, *, *, *, *;
      p2Out, p2Ies, p2Dir, p2Ren, p2Ifg, p2Ie := *, *, *, *, *, *;
    }

    /** msp430_int_init. */
    method IntInit()
      requires Valid()
      modifies this, p1Cbs, p2Cbs, p1Exit, p2Exit
      ensures Now() == Apply(old(Now()), Init)
    {
      for index := 0 to 8
        invariant forall k :: 0 <= k < index ==>
                    && p1Cbs[k] == None && p2Cbs[k] == None
                    && p1Exit[k] == EXIT_NONE && p2Exit[k] == EXIT_NONE
        invariant (p1Out, p1Ies, p1Dir, p1Ren) == old((p1Out, p1Ies, p1Dir, p1Ren))
        invariant (p2Out, p2Ies, p2Dir, p2Ren) == old((p2Out, p2Ies, p2Dir, p2Ren))
      {
        p1Cbs[index], p2Cbs[index] := None, None;
        p1Exit[index], p2Exit[index] := EXIT_NONE, EXIT_NONE;
      }
      p1ActiveLow, p2ActiveLow := 0, 0;
      assert Now().p1.(ifg := old(p1Ifg), ie := old(p1Ie)) == Cleared(old(Now()).p1);
      assert Now().p2.(ifg := old(p2Ifg), ie := old(p2Ie)) == Cleared(old(Now()).p2);
      IntEnable();
    }

    /** msp430_int_enable. */
    method IntEnable()
      requires Valid()
      modifies this`p1Ifg, this`p1Ie, this`p2Ifg, this`p2Ie
      ensures Now() == Apply(old(Now()), Enable)
    {
      hide Registered;
      RaiseRegistered();
    }

    /** Its loop: the bits of the registered pins, on masks that have been cleared. */
    method RaiseRegistered()
      requires Valid()
      modifies this`p1Ifg, this`p1Ie, this`p2Ifg, this`p2Ie
      ensures p1Ifg == p1Ie == Registered(p1Cbs[..], 8) && p2Ifg == p2Ie == Registered(p2Cbs[..], 8)
    {
      hide Assign, Registered;
      ghost var c1, c2 := p1Cbs[..], p2Cbs[..];
      RegisteredNone(c1);
      RegisteredNone(c2);
      p1Ifg, p1Ie, p2Ifg, p2Ie := 0, 0, 0, 0;
      for index := 0 to 8
        invariant p1Ifg == Registered(c1, index) && p1Ie == Registered(c1, index)
        invariant p2Ifg == Registered(c2, index) && p2Ie == Registered(c2, index)
      {
        RegisteredNext(c1, index);
        RegisteredNext(c2, index);
        RaiseIfSet(index, p1Cbs[index].Some?, p2Cbs[index].Some?);
      }
    }

    /** One round of the loop. */
    method RaiseIfSet(index: Pin, first: bool, second: bool)
      modifies this`p1Ifg, this`p1Ie, this`p2Ifg, this`p2Ie
      ensures p1Ifg == (if first then Assign(old(p1Ifg), index, true) else old(p1Ifg))
      ensures p1Ie == (if first then Assign(old(p1Ie), index, true) else old(p1Ie))
      ensures p2Ifg == (if second then Assign(old(p2Ifg), index, true) else old(p2Ifg))
      ensures p2Ie == (if second then Assign(old(p2Ie), index, true) else old(p2Ie))
    {
      hide Assign;
      if first {
        p1Ifg, p1Ie := Assign(p1Ifg, index, true), Assign(p1Ie, index, true);
      }
      if second {
        p2Ifg, p2Ie := Assign(p2Ifg, index, true), Assign(p2Ie, index, true);
      }
    }

    /** msp430_int_disable. */
    method IntDisable()
      requires Valid()
      modifies this`p1Ifg, this`p1Ie, this`p2Ifg, this`p2Ie
      ensures Now() == Apply(old(Now()), Disable)
    {
      p1Ifg, p1Ie, p2Ifg, p2Ie := 0, 0, 0, 0;
    }

    /** The level and edge of a pin of port 1. */
    method SetPolarityP1(index: nat, activeLow: bool)
      requires index < 8
      modifies this`p1Out, this`p1Ies, this`p1ActiveLow
      ensures p1Out == Assign(old(p1Out), index, activeLow)
      ensures p1Ies == if activeLow then Assign(old(p1Ies), index, true) else old(p1Ies)
      ensures p1ActiveLow == Assign(old(p1ActiveLow), index, activeLow)
    {
      hide Raise, Lower;
      if activeLow {
        p1Out, p1Ies, p1ActiveLow := Raise(p1Out, index), Raise(p1Ies, index), Raise(p1ActiveLow, index);
      } else {
        p1Out, p1ActiveLow := Lower(p1Out, index), Lower(p1ActiveLow, index);
      }
    }

    /** The direction, resistor and interrupt of a pin of port 1. */
    method SetAttachedP1(index: nat, attached: bool)
      requires index < 8
      modifies this`p1Dir, this`p1Ren, this`p1Ifg, this`p1Ie
      ensures p1Dir == Assign(old(p1Dir), index, !attached) && p1Ren == Assign(old(p1Ren), index, attached)
      ensures p1Ifg == Assign(old(p1Ifg), index, false) && p1Ie == Assign(old(p1Ie), index, attached)
    {
      hide Raise, Lower;
      if !attached {
        p1Dir, p1Ren := Raise(p1Dir, index), Lower(p1Ren, index);
        p1Ifg, p1Ie := Lower(p1Ifg, index), Lower(p1Ie, index);
      } else {
        p1Dir, p1Ren := Lower(p1Dir, index), Raise(p1Ren, index);
        p1Ifg, p1Ie := Lower(p1Ifg, index), Raise(p1Ie, index);
      }
    }

    /** The branch of msp430_reg_int_cb for port 1. */
    method RegisterP1(cb: Option<Callback>, index: nat, lpExit: byte, activeLow: bool)
      requires Valid() && index < 8
      modifies this`p1ActiveLow, this`p1Out, this`p1Ies, this`p1Dir, this`p1Ren, this`p1Ifg, this`p1Ie
      modifies p1Cbs, p1Exit
      ensures Port1() == RegisterPin(old(Port1()), index, cb, lpExit, activeLow)
    {
      hide Assign;
      p1Cbs[index] := cb;
      assert p1Cbs[..] == old(p1Cbs[..])[index := cb];
      SetPolarityP1(index, activeLow);
      SetAttachedP1(index, cb.Some?);
      p1Exit[index] := if cb.None? then EXIT_NONE else lpExit;
      assert p1Exit[..] == old(p1Exit[..])[index := if cb.None? then EXIT_NONE else lpExit];
    }

    /** The level and edge of a pin of port 2. */
    method SetPolarityP2(index: nat, activeLow: bool)
      requires index < 8
      modifies this`p2Out, this`p2Ies, this`p2ActiveLow
      ensures p2Out == Assign(old(p2Out), index, activeLow)
      ensures p2Ies == if activeLow then Assign(old(p2Ies), index, true) else old(p2Ies)
      ensures p2ActiveLow == Assign(old(p2ActiveLow), index, activeLow)
    {
      hide Raise, Lower;
      if activeLow {
        p2Out, p2Ies, p2ActiveLow := Raise(p2Out, index), Raise(p2Ies, index), Raise(p2ActiveLow, index);
      } else {
        p2Out, p2ActiveLow := Lower(p2Out, index), Lower(p2ActiveLow, index);
      }
    }

    /** The direction, resistor and interrupt of a pin of port 2. */
    method SetAttachedP2(index: nat, attached: bool)
      requires index < 8
      modifies this`p2Dir, this`p2Ren, this`p2Ifg, this`p2Ie
      ensures p2Dir == Assign(old(p2Dir), index, !attached) && p2Ren == Assign(old(p2Ren), index, attached)
      ensures p2Ifg == Assign(old(p2Ifg), index, false) && p2Ie == Assign(old(p2Ie), index, attached)
    {
      hide Raise, Lower;
      if !attached {
        p2Dir, p2Ren := Raise(p2Dir, index), Lower(p2Ren, index);
        p2Ifg, p2Ie := Lower(p2Ifg, index), Lower(p2Ie, index);
      } else {
        p2Dir, p2Ren := Lower(p2Dir, index), Raise(p2Ren, index);
        p2Ifg, p2Ie := Lower(p2Ifg, index), Raise(p2Ie, index);
      }
    }

    /** The branch of msp430_reg_int_cb for port 2. */
    method RegisterP2(cb: Option<Callback>, index: nat, lpExit: byte, activeLow: bool)
      requires Valid() && index < 8
      modifies this`p2ActiveLow, this`p2Out, this`p2Ies, this`p2Dir, this`p2Ren, this`p2Ifg, this`p2Ie
      modifies p2Cbs, p2Exit
      ensures Port2() == RegisterPin(old(Port2()), index, cb, lpExit, activeLow)
    {
      hide Assign;
      p2Cbs[index] := cb;
      assert p2Cbs[..] == old(p2Cbs[..])[index := cb];
      SetPolarityP2(index, activeLow);
      SetAttachedP2(index, cb.Some?);
      p2Exit[index] := if cb.None? then EXIT_NONE else lpExit;
      assert p2Exit[..] == old(p2Exit[..])[index := if cb.None? then EXIT_NONE else lpExit];
    }

    /** msp430_reg_int_cb. */
    method RegIntCb(cb: Option<Callback>, pin: u16, lpExit: byte, activeLow: bool)
      requires Valid() && PinIndex(pin) < 8
      modifies this, p1Cbs, p2Cbs, p1Exit, p2Exit
      ensures Now() == Apply(old(Now()), Register(pin, cb, lpExit, activeLow))
    {
      hide RegisterPin, PinIndex, Port1, Port2;
      var index := PinIndex(pin);
      if (pin / 0x100) % 2 != 0 {
        RegisterP1(cb, index, lpExit, activeLow);
      } else if (pin / 0x200) % 2 != 0 {
        RegisterP2(cb, index, lpExit, activeLow);
      }
    }

    /** P1_ISR: the callback that it calls and the low-power mode that it leaves. */
    method P1Isr(vector: u16) returns (called: Option<Callback>, left: Option<nat>)
      requires Valid() && PinIndex(vector) < 8
      modifies this`p1Ifg
      ensures Now() == Apply(old(Now()), Interrupt(P1, vector))
      ensures called == Now().p1.callbacks[PinIndex(vector)] && left == Leaves(Now().p1.exits[PinIndex(vector)])
    {
      hide Raise, Lower, PinIndex;
      var index := PinIndex(vector);
      called := p1Cbs[index];
      p1Ifg := Lower(p1Ifg, index);
      left := Leaves(p1Exit[index]);
    }

    /** P2_ISR. */
    method P2Isr(vector: u16) returns (called: Option<Callback>, left: Option<nat>)
      requires Valid() && PinIndex(vector) < 8
      modifies this`p2Ifg
      ensures Now() == Apply(old(Now()), Interrupt(P2, vector))
      ensures called == Now().p2.callbacks[PinIndex(vector)] && left == Leaves(Now().p2.exits[PinIndex(vector)])
    {
      hide Raise, Lower, PinIndex;
      var index := PinIndex(vector);
      called := p2Cbs[index];
      p2Ifg := Lower(p2Ifg, index);
      left := Leaves(p2Exit[index]);
    }
  }
}
