/**
 * The GPIO interrupt registry of the MSP430 system layer: for each of two ports, eight callbacks with
 * their exit modes, and the port's bit masks, which the calls have to keep in agreement.
 */
module Gpio {
  import opened Words

  type Callback = nat

  // A pin of a port.
  type Pin = i: nat | i < 8

  const EXIT_NONE: byte := 0

  datatype PortId = P1 | P2

  /** One port: its entries in the registry and its registers. */
  datatype Port = Port(
    callbacks: seq<Option<Callback>>,
    exits: seq<byte>,
    activeLow: bv8,
    out: bv8,
    ies: bv8,
    dir: bv8,
    ren: bv8,
    ifg: bv8,
    ie: bv8)

  datatype Registry = Registry(p1: Port, p2: Port)

  function Get(r: Registry, id: PortId): Port {
    if id == P1 then r.p1 else r.p2
  }

  function Put(r: Registry, id: PortId, p: Port): Registry {
    if id == P1 then r.(p1 := p) else r.(p2 := p)
  }

  predicate Sized(r: Registry) {
    |r.p1.callbacks| == |r.p1.exits| == 8 && |r.p2.callbacks| == |r.p2.exits| == 8
  }

  // ----- Pins, indices and bits ---------------------------------------------------------------

  /** The port selector of a pin number: bit 8, INT_PORT_P1, is looked at before bit 9. */
  function PinPort(pin: u16): Option<PortId> {
    if (pin / 0x100) % 2 != 0 then Some(P1) else if (pin / 0x200) % 2 != 0 then Some(P2) else None
  }

  /** int_pin_to_index: the low five bits, halved, less one in an unsigned char. */
  function PinIndex(pin: u16): byte {
    var half := (pin % 0x20) / 2;
    if half == 0 then 255 else half - 1
  }

  /** index_to_bit. */
  function Bit(index: Pin): bv8
  {
    if index == 0 then 0x01 else if index == 1 then 0x02 else if index == 2 then 0x04 else if index == 3 then 0x08
    else if index == 4 then 0x10 else if index == 5 then 0x20 else if index == 6 then 0x40 else 0x80
  }

  /** Pin i's bit is 1 shifted left by i. */
  lemma BitIsShifted(index: Pin)
    ensures Bit(index) == (1 as bv8) << index
  {
  }

  predicate IsSet(mask: bv8, index: Pin)
  {
    mask & Bit(index) != 0
  }

  function Raise(mask: bv8, index: Pin): bv8
  {
    mask | Bit(index)
  }

  function Lower(mask: bv8, index: Pin): bv8
  {
    mask & !Bit(index)
  }

  function Assign(mask: bv8, index: Pin, on: bool): bv8
  {
    if on then Raise(mask, index) else Lower(mask, index)
  }

  lemma OneBitChanges(mask: bv8, index: Pin, other: Pin, on: bool)
    ensures IsSet(Assign(mask, index, on), other) == if other == index then on else IsSet(mask, other)
  {
  }

  /** Pin i of a port has the number that the header gives it, and no other pin of the hardware shares
      its port and index. */
  lemma PinNumbers(i: Pin)
    ensures PinPort(0x102 + 2 * i) == Some(P1) && PinIndex(0x102 + 2 * i) == i
    ensures PinPort(0x202 + 2 * i) == Some(P2) && PinIndex(0x202 + 2 * i) == i
  {
  }

  // ----- The calls ----------------------------------------------------------------------------

  /** Registers or, with no callback, removes a pin of a port. */
  function RegisterPin(p: Port, index: nat, cb: Option<Callback>, exit: byte, activeLow: bool): (q: Port)
    requires index < 8 && |p.callbacks| == |p.exits| == 8
    ensures |q.callbacks| == |q.exits| == 8
  {
    hide Assign;
    p.(callbacks := p.callbacks[index := cb],
       exits := p.exits[index := if cb.Some? then exit else EXIT_NONE],
       out := Assign(p.out, index, activeLow),
       ies := if activeLow then Assign(p.ies, index, true) else p.ies,
       activeLow := Assign(p.activeLow, index, activeLow),
       dir := Assign(p.dir, index, cb.None?),
       ren := Assign(p.ren, index, cb.Some?),
       ifg := Assign(p.ifg, index, false),
       ie := Assign(p.ie, index, cb.Some?))
  }

  /** The mask of the pins that have a callback, from index n up. */
  function Registered(callbacks: seq<Option<Callback>>, n: nat): bv8
    requires n <= |callbacks| == 8
  {
    if n == 0 then 0
    else if callbacks[n - 1].Some? then Assign(Registered(callbacks, n - 1), n - 1, true)
    else Registered(callbacks, n - 1)
  }

  lemma RegisteredNone(callbacks: seq<Option<Callback>>)
    requires |callbacks| == 8
    ensures Registered(callbacks, 0) == 0
  {
  }

  lemma RegisteredNext(callbacks: seq<Option<Callback>>, n: nat)
    requires n < |callbacks| == 8
    ensures Registered(callbacks, n + 1)
            == if callbacks[n].Some? then Assign(Registered(callbacks, n), n, true) else Registered(callbacks, n)
  {
    hide Assign;
  }

  function EnablePort(p: Port): (q: Port)
    requires |p.callbacks| == 8
    ensures q.callbacks == p.callbacks && q.exits == p.exits
  {
    var mask := Registered(p.callbacks, 8);
    p.(ifg := mask, ie := mask)
  }

  datatype Call =
    | Init
    | Enable
    | Disable
    | Register(pin: u16, callback: Option<Callback>, exit: byte, activeLow: bool)
    | Interrupt(id: PortId, vector: u16)

  /** A call's pin is one that the hardware has; so is the pin that an interrupt vector stands for. */
  predicate Proper(c: Call) {
    match c
    case Register(pin, _, _, _) => PinIndex(pin) < 8
    case Interrupt(_, vector) => PinIndex(vector) < 8
    case _ => true
  }

  function Cleared(p: Port): Port {
    p.(callbacks := seq(8, _ => None), exits := seq(8, _ => EXIT_NONE), activeLow := 0)
  }

  function Apply(r: Registry, c: Call): (r': Registry)
    requires Sized(r) && Proper(c)
    ensures Sized(r')
  {
    hide RegisterPin, EnablePort, PinIndex, PinPort, Assign;
    match c
    case Init => Registry(EnablePort(Cleared(r.p1)), EnablePort(Cleared(r.p2)))
    case Enable => Registry(EnablePort(r.p1), EnablePort(r.p2))
    case Disable => Registry(r.p1.(ifg := 0, ie := 0), r.p2.(ifg := 0, ie := 0))
    case Register(pin, cb, exit, low) =>
      var port := PinPort(pin);
      if port.None? then r
      else Put(r, port.value, RegisterPin(Get(r, port.value), PinIndex(pin), cb, exit, low))
    case Interrupt(id, vector) =>
      var p := Get(r, id);
      Put(r, id, p.(ifg := Assign(p.ifg, PinIndex(vector), false)))
  }

  /** The low-power mode that an exit mode makes an interrupt leave. */
  function Leaves(exit: byte): Option<nat> {
    if 1 <= exit <= 5 then Some(exit - 1) else None
  }

  /** The exit modes INT_EXIT_LPM0 to INT_EXIT_LPM4, 1 to 5, leave the mode of their name, and no other
      value leaves any. */
  lemma ExitModes(exit: byte, mode: nat)
    ensures Leaves(exit) == Some(mode) <==> mode <= 4 && exit == mode + 1
  {
  }

  function Run(r: Registry, calls: seq<Call>): (r': Registry)
    requires Sized(r) && forall c :: c in calls ==> Proper(c)
    ensures Sized(r')
    decreases |calls|
  {
    if calls == [] then r
    else
      assert calls[0] in calls;
      Run(Apply(r, calls[0]), calls[1..])
  }

  // ----- Masks and tables ---------------------------------------------------------------------

  lemma {:induction false} RegisteredBits(callbacks: seq<Option<Callback>>, n: nat, index: nat)
    requires n <= |callbacks| == 8 && index < 8
    ensures IsSet(Registered(callbacks, n), index) <==> index < n && callbacks[index].Some?
  {
    if n != 0 {
      RegisteredBits(callbacks, n - 1, index);
      OneBitChanges(Registered(callbacks, n - 1), n - 1, index, true);
      hide IsSet, Assign;
    }
  }

  /** A pin whose interrupt is enabled has a callback; a pin without one leaves low-power mode
      alone. */
  predicate PinInv(p: Port, index: nat)
    requires index < 8 && |p.callbacks| == |p.exits| == 8
  {
    && (IsSet(p.ie, index) ==> p.callbacks[index].Some?)
    && (p.callbacks[index].None? ==> p.exits[index] == EXIT_NONE)
  }

  /** Every pin with a callback has its interrupt enabled. */
  predicate AllEnabled(p: Port)
    requires |p.callbacks| == 8
  {
    forall i :: 0 <= i < 8 && p.callbacks[i].Some? ==> IsSet(p.ie, i)
  }

  predicate Inv(r: Registry)
    requires Sized(r)
  {
    forall i :: 0 <= i < 8 ==> PinInv(r.p1, i) && PinInv(r.p2, i)
  }

  predicate BothEnabled(r: Registry)
    requires Sized(r)
  {
    AllEnabled(r.p1) && AllEnabled(r.p2)
  }

  lemma RegisterPinKeeps(p: Port, index: nat, cb: Option<Callback>, exit: byte, activeLow: bool, other: nat)
    requires index < 8 && other < 8 && |p.callbacks| == |p.exits| == 8
    ensures var q := RegisterPin(p, index, cb, exit, activeLow);
            && (PinInv(p, other) ==> PinInv(q, other))
            && (IsSet(q.ie, other) <==> if other == index then cb.Some? else IsSet(p.ie, other))
            && q.callbacks[other] == if other == index then cb else p.callbacks[other]
  {
    hide IsSet, Assign;
    OneBitChanges(p.ie, index, other, cb.Some?);
  }

  lemma NoBitInZero(index: Pin)
    ensures !IsSet(0, index)
  {
  }

  lemma EnablePortMatches(p: Port, index: nat)
    requires |p.callbacks| == |p.exits| == 8 && index < 8
    ensures IsSet(EnablePort(p).ie, index) <==> p.callbacks[index].Some?
  {
    RegisteredBits(p.callbacks, 8, index);
  }

  /** What a call comes to for one pin. */
  lemma CallKeepsPin(r: Registry, c: Call, id: PortId, i: nat)
    requires Sized(r) && Proper(c) && i < 8 && (PinInv(Get(r, id), i) || c == Init)
    ensures var p, q := Get(r, id), Get(Apply(r, c), id);
            && PinInv(q, i)
            && (c in {Init, Enable} ==> (q.callbacks[i].Some? ==> IsSet(q.ie, i)))
            && ((c.Register? || c.Interrupt?) && (p.callbacks[i].Some? ==> IsSet(p.ie, i)) ==> (q.callbacks[i].Some? ==> IsSet(q.ie, i)))
  {
    hide IsSet, RegisterPin, EnablePort, PinIndex, PinPort;
    var p := Get(r, id);
    match c
    case Init => EnablePortMatches(Cleared(p), i);
    case Enable => EnablePortMatches(p, i);
    case Disable => NoBitInZero(i);
    case Register(pin, cb, exit, low) => RegisterPinKeeps(p, PinIndex(pin), cb, exit, low, i);
    case Interrupt(_, vector) =>
  }

  lemma CallKeepsInv(r: Registry, c: Call)
    requires Sized(r) && Proper(c) && (Inv(r) || c == Init)
    ensures Inv(Apply(r, c))
    ensures c in {Init, Enable} || (BothEnabled(r) && c != Disable) ==> BothEnabled(Apply(r, c))
  {
    hide Apply, IsSet, PinInv;
    forall i | 0 <= i < 8
      ensures var r' := Apply(r, c);
              && PinInv(r'.p1, i) && PinInv(r'.p2, i)
              && (c in {Init, Enable} || (BothEnabled(r) && c != Disable) ==>
                    && (r'.p1.callbacks[i].Some? ==> IsSet(r'.p1.ie, i))
                    && (r'.p2.callbacks[i].Some? ==> IsSet(r'.p2.ie, i)))
    {
      CallKeepsPin(r, c, P1, i);
      CallKeepsPin(r, c, P2, i);
    }
  }

  /** Whether the interrupts have been switched on and not off again, at the end of some calls. */
  function SwitchedOn(on: bool, calls: seq<Call>): bool {
    if calls == [] then on
    else
      var c := calls[|calls| - 1];
      if c in {Init, Enable} then true else if c == Disable then false
      else SwitchedOn(on, calls[..|calls| - 1])
  }

  lemma {:induction false} LastCall(r: Registry, calls: seq<Call>, c: Call)
    requires Sized(r) && Proper(c) && forall d :: d in calls ==> Proper(d)
    ensures Run(r, calls + [c]) == Apply(Run(r, calls), c)
    decreases |calls|
  {
    if calls == [] {
      assert Run(r, [c]) == Run(Apply(r, c), []);
    } else {
      assert calls[0] in calls;
      assert (calls + [c])[0] == calls[0] && (calls + [c])[1..] == calls[1..] + [c];
      LastCall(Apply(r, calls[0]), calls[1..], c);
    }
  }

  lemma {:induction false} CallsKeepInv(r: Registry, on: bool, calls: seq<Call>)
    requires Sized(r) && Inv(r) && (on ==> BothEnabled(r)) && forall c :: c in calls ==> Proper(c)
    ensures Inv(Run(r, calls)) && (SwitchedOn(on, calls) ==> BothEnabled(Run(r, calls)))
    decreases |calls|
  {
    if calls != [] {
      hide Apply, Inv, BothEnabled;
      var n := |calls| - 1;
      var before := Run(r, calls[..n]);
      assert calls == calls[..n] + [calls[n]];
      CallsKeepInv(r, on, calls[..n]);
      LastCall(r, calls[..n], calls[n]);
      CallKeepsInv(before, calls[n]);
    }
  }

  /** After initialisation and any further calls, an enabled interrupt belongs to a pin with a
      callback and a pin without one has exit mode NONE; from an enable until the next disable, the
      enabled pins are exactly those with a callback. */
  lemma MasksAgreeWithCallbacks(r: Registry, calls: seq<Call>, i: nat)
    requires Sized(r) && i < 8 && forall c :: c in calls ==> Proper(c)
    ensures var s := Run(Apply(r, Init), calls);
            && PinInv(s.p1, i) && PinInv(s.p2, i)
            && (SwitchedOn(true, calls) ==>
                  && (IsSet(s.p1.ie, i) <==> s.p1.callbacks[i].Some?)
                  && (IsSet(s.p2.ie, i) <==> s.p2.callbacks[i].Some?))
  {
    CallKeepsInv(r, Init);
    CallsKeepInv(Apply(r, Init), true, calls);
  }

  // ----- Which interrupts are enabled, and which flags are raised -----------------------------

  /** The call registers or removes this pin. */
  predicate Concerns(c: Call, id: PortId, i: nat) {
    c.Register? && PinPort(c.pin) == Some(id) && PinIndex(c.pin) == i
  }

  /** Whether a pin has been registered, or all have been enabled, since the last disable. */
  function Armed(before: bool, calls: seq<Call>, id: PortId, i: nat): bool {
    if calls == [] then before
    else
      var c := calls[|calls| - 1];
      if c in {Init, Enable} || Concerns(c, id, i) then true
      else if c == Disable then false
      else Armed(before, calls[..|calls| - 1], id, i)
  }

  /** Whether all pins have been enabled since the last disable, and since this pin was last registered
      or last raised an interrupt. */
  function Flagged(before: bool, calls: seq<Call>, id: PortId, i: nat): bool {
    if calls == [] then before
    else
      var c := calls[|calls| - 1];
      if c in {Init, Enable} then true
      else if c == Disable || Concerns(c, id, i) || (c.Interrupt? && c.id == id && PinIndex(c.vector) == i) then false
      else Flagged(before, calls[..|calls| - 1], id, i)
  }

  /** A pin's two mask bits are those of a registered pin that is armed, or flagged. */
  predicate Agrees(p: Port, i: nat, armed: bool, flagged: bool)
    requires i < 8 && |p.callbacks| == 8
  {
    && (IsSet(p.ie, i) <==> p.callbacks[i].Some? && armed)
    && (IsSet(p.ifg, i) <==> p.callbacks[i].Some? && flagged)
  }

  lemma EnabledPortAgrees(p: Port, i: nat)
    requires |p.callbacks| == |p.exits| == 8 && i < 8
    ensures Agrees(EnablePort(p), i, true, true)
  {
    RegisteredBits(p.callbacks, 8, i);
    hide IsSet, Registered;
  }

  lemma RegisteredPinAgrees(p: Port, index: nat, cb: Option<Callback>, exit: byte, low: bool, i: nat, armed: bool, flagged: bool)
    requires index < 8 && i < 8 && |p.callbacks| == |p.exits| == 8 && Agrees(p, i, armed, flagged)
    ensures Agrees(RegisterPin(p, index, cb, exit, low), i, armed || i == index, flagged && i != index)
  {
    hide IsSet, Assign;
    OneBitChanges(p.ie, index, i, cb.Some?);
    OneBitChanges(p.ifg, index, i, false);
  }

  lemma CallAgrees(r: Registry, c: Call, id: PortId, i: nat, armed: bool, flagged: bool)
    requires Sized(r) && Proper(c) && i < 8 && (Agrees(Get(r, id), i, armed, flagged) || c == Init)
    ensures Agrees(Get(Apply(r, c), id), i, Armed(armed, [c], id, i), Flagged(flagged, [c], id, i))
  {
    LastOfOne(c, id, i, armed, flagged);
    match c {
      case Init => EnabledPortAgrees(Cleared(Get(r, id)), i);
      case Enable => EnabledPortAgrees(Get(r, id), i);
      case Disable => NoBitInZero(i);
      case Register(pin, cb, exit, low) =>
        if PinPort(pin) == Some(id) {
          RegisteredPinAgrees(Get(r, id), PinIndex(pin), cb, exit, low, i, armed, flagged);
        }
      case Interrupt(_, vector) => ServedPinAgrees(Get(r, id), PinIndex(vector), i, armed, flagged);
    }
    hide IsSet, RegisterPin, EnablePort, PinIndex, PinPort, Assign, Armed, Flagged, Cleared;
  }

  /** What a single call makes of the two conditions. */
  lemma LastOfOne(c: Call, id: PortId, i: nat, armed: bool, flagged: bool)
    ensures Armed(armed, [c], id, i) == (c in {Init, Enable} || Concerns(c, id, i) || (c != Disable && armed))
    ensures Flagged(flagged, [c], id, i)
            == (c in {Init, Enable}
                || (c != Disable && !Concerns(c, id, i) && !(c.Interrupt? && c.id == id && PinIndex(c.vector) == i) && flagged))
  {
    hide Concerns, PinIndex;
    assert [c][0] == c && [c][..0] == [];
  }

  lemma ServedPinAgrees(p: Port, index: nat, i: nat, armed: bool, flagged: bool)
    requires index < 8 && i < 8 && |p.callbacks| == 8 && Agrees(p, i, armed, flagged)
    ensures Agrees(p.(ifg := Assign(p.ifg, index, false)), i, armed, flagged && i != index)
  {
    hide IsSet, Assign;
    OneBitChanges(p.ifg, index, i, false);
  }

  lemma {:induction false} CallsAgree(r: Registry, calls: seq<Call>, id: PortId, i: nat)
    requires Sized(r) && i < 8 && (forall c :: c in calls ==> Proper(c)) && Agrees(Get(r, id), i, true, true)
    ensures Agrees(Get(Run(r, calls), id), i, Armed(true, calls, id, i), Flagged(true, calls, id, i))
    decreases |calls|
  {
    if calls != [] {
      hide Apply, PinIndex, PinPort, Agrees;
      var n := |calls| - 1;
      assert calls == calls[..n] + [calls[n]] && [calls[n]][..0] == [];
      CallsAgree(r, calls[..n], id, i);
      LastCall(r, calls[..n], calls[n]);
      CallAgrees(Run(r, calls[..n]), calls[n], id, i, Armed(true, calls[..n], id, i), Flagged(true, calls[..n], id, i));
    }
  }

  /** After initialisation and any further calls, a pin's interrupt is enabled exactly if it has a
      callback and was registered, or all were enabled, since the last disable; its flag is raised
      exactly if it has one and all were enabled since. */
  lemma MasksAreDecidedByCalls(r: Registry, calls: seq<Call>, id: PortId, i: nat)
    requires Sized(r) && i < 8 && forall c :: c in calls ==> Proper(c)
    ensures var p := Get(Run(Apply(r, Init), calls), id);
            && (IsSet(p.ie, i) <==> p.callbacks[i].Some? && Armed(true, calls, id, i))
            && (IsSet(p.ifg, i) <==> p.callbacks[i].Some? && Flagged(true, calls, id, i))
  {
    CallAgrees(r, Init, id, i, true, true);
    assert [Init][0] == Init;
    CallsAgree(Apply(r, Init), calls, id, i);
    hide Run, Apply, IsSet, Armed, Flagged;
  }

  /** Directly after a disable no interrupt is enabled and no flag is raised; directly after an enable
      both are exactly the pins with a callback. */
  lemma DisableAndEnable(r: Registry, id: PortId, i: nat)
    requires Sized(r) && i < 8
    ensures var off, on := Get(Apply(r, Disable), id), Get(Apply(r, Enable), id);
            && !IsSet(off.ie, i) && !IsSet(off.ifg, i)
            && (IsSet(on.ie, i) <==> Get(r, id).callbacks[i].Some?)
            && (IsSet(on.ifg, i) <==> Get(r, id).callbacks[i].Some?)
            && off == Get(r, id).(ie := off.ie, ifg := off.ifg) && on == Get(r, id).(ie := on.ie, ifg := on.ifg)
  {
    NoBitInZero(i);
    EnabledPortAgrees(Get(r, id), i);
    hide IsSet, Registered;
  }

  /** An initialised pin: no callback, exit mode NONE, not active-low, not enabled; and its other registers
      as they were. */
  lemma InitialPin(r: Registry, id: PortId, i: nat)
    requires Sized(r) && i < 8
    ensures var p, q := Get(r, id), Get(Apply(r, Init), id);
            && q.callbacks[i] == None && q.exits[i] == EXIT_NONE && !IsSet(q.activeLow, i)
            && !IsSet(q.ie, i) && !IsSet(q.ifg, i)
            && q.out == p.out && q.ies == p.ies && q.dir == p.dir && q.ren == p.ren
  {
    NoBitInZero(i);
    EnabledPortAgrees(Cleared(Get(r, id)), i);
    hide IsSet, Registered;
  }

  /** Serving an interrupt takes back its pin's flag and changes nothing else. */
  lemma ServingClearsFlag(r: Registry, id: PortId, vector: u16, i: nat)
    requires Sized(r) && i < 8 && PinIndex(vector) < 8
    ensures var p, s := Get(r, id), Apply(r, Interrupt(id, vector));
            && (IsSet(Get(s, id).ifg, i) <==> IsSet(p.ifg, i) && i != PinIndex(vector))
            && s == Put(r, id, p.(ifg := Get(s, id).ifg))
  {
    OneBitChanges(Get(r, id).ifg, PinIndex(vector), i, false);
    hide IsSet, Assign, PinIndex;
  }

  /** The callback that the last registration of a pin, if any, gave it. */
  function LastRegistered(before: Option<Callback>, calls: seq<Call>, id: PortId, i: nat): Option<Callback> {
    if calls == [] then before
    else
      var c := calls[|calls| - 1];
      if c.Register? && PinPort(c.pin) == Some(id) && PinIndex(c.pin) == i then c.callback
      else if c == Init then None
      else LastRegistered(before, calls[..|calls| - 1], id, i)
  }

  lemma CallSetsCallback(r: Registry, c: Call, id: PortId, i: nat)
    requires Sized(r) && Proper(c) && i < 8
    ensures Get(Apply(r, c), id).callbacks[i] == LastRegistered(Get(r, id).callbacks[i], [c], id, i)
  {
    hide IsSet, PinIndex, PinPort, Assign;
    assert [c][0] == c && [c][..0] == [];
  }

  lemma {:induction false} CallbackIsLastRegistered(r: Registry, calls: seq<Call>, id: PortId, i: nat)
    requires Sized(r) && i < 8 && forall c :: c in calls ==> Proper(c)
    ensures Get(Run(r, calls), id).callbacks[i] == LastRegistered(Get(r, id).callbacks[i], calls, id, i)
    decreases |calls|
  {
    if calls != [] {
      hide Apply, PinIndex, PinPort;
      var n := |calls| - 1;
      assert calls == calls[..n] + [calls[n]];
      CallbackIsLastRegistered(r, calls[..n], id, i);
      LastCall(r, calls[..n], calls[n]);
      CallSetsCallback(Run(r, calls[..n]), calls[n], id, i);
      assert [calls[n]][..0] == [];
    }
  }

  /** After initialisation and any further whole calls and interrupts between them, the interrupt of an
      enabled pin calls the callback registered last, and the interrupt of a pin without callback
      leaves no low-power mode. */
  lemma InterruptIsServed(r: Registry, calls: seq<Call>, id: PortId, i: nat)
    requires Sized(r) && i < 8 && forall c :: c in calls ==> Proper(c)
    ensures var p := Get(Run(Apply(r, Init), calls), id);
            && p.callbacks[i] == LastRegistered(None, calls, id, i)
            && (IsSet(p.ie, i) ==> p.callbacks[i].Some?)
            && (p.callbacks[i].None? ==> Leaves(p.exits[i]) == None)
  {
    hide IsSet;
    MasksAgreeWithCallbacks(r, calls, i);
    CallbackIsLastRegistered(Apply(r, Init), calls, id, i);
  }

  /** Two ports that agree in everything that concerns a pin. */
  predicate SamePin(p: Port, q: Port, pin: nat)
    requires pin < 8 && |p.callbacks| == |p.exits| == |q.callbacks| == |q.exits| == 8
  {
    && q.callbacks[pin] == p.callbacks[pin] && q.exits[pin] == p.exits[pin]
    && IsSet(q.activeLow, pin) == IsSet(p.activeLow, pin)
    && IsSet(q.out, pin) == IsSet(p.out, pin) && IsSet(q.ies, pin) == IsSet(p.ies, pin)
    && IsSet(q.dir, pin) == IsSet(p.dir, pin) && IsSet(q.ren, pin) == IsSet(p.ren, pin)
    && IsSet(q.ifg, pin) == IsSet(p.ifg, pin) && IsSet(q.ie, pin) == IsSet(p.ie, pin)
  }

  lemma SamePinReflexive(p: Port, pin: nat)
    requires pin < 8 && |p.callbacks| == |p.exits| == 8
    ensures SamePin(p, p, pin)
  {
  }

  lemma RegisterPinTouchesOne(p: Port, index: nat, cb: Option<Callback>, exit: byte, low: bool, other: nat)
    requires index < 8 && other < 8 && index != other && |p.callbacks| == |p.exits| == 8
    ensures SamePin(p, RegisterPin(p, index, cb, exit, low), other)
  {
    hide IsSet, Assign;
    OneBitChanges(p.activeLow, index, other, low);
    OneBitChanges(p.out, index, other, low);
    OneBitChanges(p.ies, index, other, true);
    OneBitChanges(p.dir, index, other, cb.None?);
    OneBitChanges(p.ren, index, other, cb.Some?);
    OneBitChanges(p.ifg, index, other, false);
    OneBitChanges(p.ie, index, other, cb.Some?);
  }

  /** Registering a pin changes this pin alone: no bit, callback or exit mode of another pin of either
      port. */
  lemma RegisteringTouchesOnePin(r: Registry, pin: u16, cb: Option<Callback>, exit: byte, low: bool, id: PortId, other: nat)
    requires Sized(r) && PinIndex(pin) < 8 && other < 8
    requires PinPort(pin) != Some(id) || PinIndex(pin) != other
    ensures SamePin(Get(r, id), Get(Apply(r, Register(pin, cb, exit, low)), id), other)
  {
    hide IsSet, RegisterPin, SamePin, PinIndex, PinPort;
    if PinPort(pin) == Some(id) {
      RegisterPinTouchesOne(Get(r, id), PinIndex(pin), cb, exit, low, other);
    } else {
      SamePinReflexive(Get(r, id), other);
    }
  }

  /** What registering does to the pin itself: an input with a pull resistor and an enabled interrupt,
      or an output with neither, in both cases with no interrupt pending. The edge that is watched
      is the falling one for an active-low pin, but an active-high pin is watched on its rising edge
      exactly if it never was active-low before: the edge bit is never taken back. */
  lemma RegisteringSetsItsPin(r: Registry, pin: u16, cb: Option<Callback>, exit: byte, low: bool)
    requires Sized(r) && PinIndex(pin) < 8 && PinPort(pin).Some?
    ensures var index, id := PinIndex(pin), PinPort(pin).value;
            var p, q := Get(r, id), Get(Apply(r, Register(pin, cb, exit, low)), id);
            && q.callbacks[index] == cb && q.exits[index] == (if cb.Some? then exit else EXIT_NONE)
            && (IsSet(q.ie, index) <==> cb.Some?) && (IsSet(q.ren, index) <==> cb.Some?)
            && (IsSet(q.dir, index) <==> cb.None?) && !IsSet(q.ifg, index)
            && (IsSet(q.activeLow, index) <==> low) && (IsSet(q.out, index) <==> low)
            && (IsSet(q.ies, index) == low <==> low || !IsSet(p.ies, index))
  {
    RegisterPinSets(Get(r, PinPort(pin).value), PinIndex(pin), cb, exit, low);
    hide IsSet, RegisterPin, PinIndex, PinPort;
  }

  lemma RegisterPinSets(p: Port, index: nat, cb: Option<Callback>, exit: byte, low: bool)
    requires index < 8 && |p.callbacks| == |p.exits| == 8
    ensures var q := RegisterPin(p, index, cb, exit, low);
            && q.callbacks[index] == cb && q.exits[index] == (if cb.Some? then exit else EXIT_NONE)
            && (IsSet(q.ie, index) <==> cb.Some?) && (IsSet(q.ren, index) <==> cb.Some?)
            && (IsSet(q.dir, index) <==> cb.None?) && !IsSet(q.ifg, index)
            && (IsSet(q.activeLow, index) <==> low) && (IsSet(q.out, index) <==> low)
            && (IsSet(q.ies, index) == low <==> low || !IsSet(p.ies, index))
  {
    hide IsSet, Assign;
    OneBitChanges(p.ie, index, index, cb.Some?);
    OneBitChanges(p.ren, index, index, cb.Some?);
    OneBitChanges(p.dir, index, index, cb.None?);
    OneBitChanges(p.ifg, index, index, false);
    OneBitChanges(p.activeLow, index, index, low);
    OneBitChanges(p.out, index, index, low);
    OneBitChanges(p.ies, index, index, true);
  }
}
