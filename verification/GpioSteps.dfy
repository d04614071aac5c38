/**
 * Registering a pin store by store: the pin's interrupt stays enabled meanwhile, and what it finds between
 * two stores is partly the old registration and partly the new one.
 */
module GpioSteps {
  import opened Words
  import opened Gpio

  /** A port after the first k of the nine stores of a registration, in their order. */
  function Stores(p: Port, index: nat, cb: Option<Callback>, exit: byte, low: bool, k: nat): (q: Port)
    requires index < 8 && |p.callbacks| == |p.exits| == 8
    ensures |q.callbacks| == |q.exits| == 8
  {
    hide Assign;
    p.(callbacks := if k < 1 then p.callbacks else p.callbacks[index := cb],
       out := if k < 2 then p.out else Assign(p.out, index, low),
       ies := if k < 3 || !low then p.ies else Assign(p.ies, index, true),
       activeLow := if k < 4 then p.activeLow else Assign(p.activeLow, index, low),
       dir := if k < 5 then p.dir else Assign(p.dir, index, cb.None?),
       ren := if k < 6 then p.ren else Assign(p.ren, index, cb.Some?),
       ifg := if k < 7 then p.ifg else Assign(p.ifg, index, false),
       ie := if k < 8 then p.ie else Assign(p.ie, index, cb.Some?),
       exits := if k < 9 then p.exits else p.exits[index := if cb.Some? then exit else EXIT_NONE])
  }

  /** Uninterrupted, the nine stores are the registration. */
  lemma StoresRegister(p: Port, index: nat, cb: Option<Callback>, exit: byte, low: bool)
    requires index < 8 && |p.callbacks| == |p.exits| == 8
    ensures Stores(p, index, cb, exit, low, 9) == RegisterPin(p, index, cb, exit, low)
  {
    hide Assign;
  }

  /** An enabled interrupt finds no callback if and only if its pin is being removed, between the first
      store and the one that disables it; it then still leaves the low-power mode of the old
      registration. */
  lemma NoCallbackExactlyInRemoval(p: Port, index: nat, cb: Option<Callback>, exit: byte, low: bool, k: nat, i: nat)
    requires index < 8 && i < 8 && |p.callbacks| == |p.exits| == 8 && PinInv(p, i)
    ensures var q := Stores(p, index, cb, exit, low, k);
            && (IsSet(q.ie, i) && q.callbacks[i].None?
                <==> IsSet(p.ie, i) && i == index && cb.None? && 1 <= k < 8)
            && (IsSet(q.ie, i) && q.callbacks[i].None? ==> Leaves(q.exits[i]) == Leaves(p.exits[i]))
  {
    OneBitChanges(p.ie, index, i, cb.Some?);
    hide IsSet, Assign;
  }

  /** After initialisation, any whole calls, and k stores of one more registration, an enabled interrupt
      finds the callback that its pin was given last, the one being registered included from its
      first store on. */
  lemma InterruptInRegistration(r: Registry, calls: seq<Call>, id: PortId, index: nat, cb: Option<Callback>,
                                exit: byte, low: bool, k: nat, i: nat)
    requires Sized(r) && index < 8 && i < 8 && forall c :: c in calls ==> Proper(c)
    ensures var p := Get(Run(Apply(r, Init), calls), id);
            var q := Stores(p, index, cb, exit, low, k);
            && q.callbacks[i] == (if i == index && k >= 1 then cb else LastRegistered(None, calls, id, i))
            && (IsSet(q.ie, i) && !(i == index && cb.None? && 1 <= k < 8) ==> q.callbacks[i].Some?)
            && (IsSet(q.ie, i) && i != index ==> q.exits[i] == p.exits[i])
  {
    InterruptIsServed(r, calls, id, i);
    MasksAgreeWithCallbacks(r, calls, i);
    var p := Get(Run(Apply(r, Init), calls), id);
    NoCallbackExactlyInRemoval(p, index, cb, exit, low, k, i);
    hide IsSet, Assign, Run;
  }

  /** Whether an interrupt between two stores of a removal wakes the processor without having called
      anything, for some moment of it: exactly if the removed pin was enabled with an exit mode. */
  lemma EmptyWakeUpExactly(p: Port, index: nat, low: bool)
    requires index < 8 && |p.callbacks| == |p.exits| == 8 && PinInv(p, index)
    ensures (exists k :: WakesEmpty(Stores(p, index, None, EXIT_NONE, low, k), index))
            <==> IsSet(p.ie, index) && Leaves(p.exits[index]).Some?
  {
    hide IsSet, Stores, Leaves;
    forall k
      ensures WakesEmpty(Stores(p, index, None, EXIT_NONE, low, k), index)
              ==> IsSet(p.ie, index) && Leaves(p.exits[index]).Some?
    {
      NoCallbackExactlyInRemoval(p, index, None, EXIT_NONE, low, k, index);
    }
    if IsSet(p.ie, index) && Leaves(p.exits[index]).Some? {
      NoCallbackExactlyInRemoval(p, index, None, EXIT_NONE, low, 1, index);
      assert WakesEmpty(Stores(p, index, None, EXIT_NONE, low, 1), index);
    }
  }

  predicate WakesEmpty(p: Port, i: nat)
    requires i < 8 && |p.callbacks| == |p.exits| == 8
  {
    IsSet(p.ie, i) && p.callbacks[i].None? && Leaves(p.exits[i]).Some?
  }
}
