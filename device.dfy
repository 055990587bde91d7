/** The base device every site device extends: the guarded capability write
    `update` and the API-error classifier `handleApiError`. The platform's
    capability store is state of the device: the capability list, the stored
    values, and a log of every `setCapabilityValue` call. Whether the platform
    rejects a write is an input. */
module Device {
  import opened Wrappers
  import opened Values
  import Seqs

  /** The value argument of `update`: a plain value, a function whose call
      yields `result`, or a function whose call throws. */
  datatype Arg = Literal(v: Value) | Deferred(result: Value) | Throws

  /** One `update(capability, value)` call. */
  datatype Update = Update(capability: string, arg: Arg)

  /** The value after `if (typeof value === "function") value = value()`; a
      throwing function yields no value, which is never written. */
  function Resolve(a: Arg): Value {
    match a
    case Literal(v) => v
    case Deferred(r) => r
    case Throws => Undefined
  }

  /** `Threw`: the call of the value function threw, which rejects that one
      `update` call's promise before any write. */
  datatype Outcome = NotSupported | Threw | SkippedUndefined | Written(value: Value)

  /** The decision `update` takes for a device whose capability list is `caps`. */
  function Decide(caps: seq<string>, u: Update): Outcome {
    if u.capability !in caps then NotSupported
    else if u.arg.Throws? then Threw
    else if Resolve(u.arg).Undefined? then SkippedUndefined
    else Written(Resolve(u.arg))
  }

  /** Only `undefined` is skipped: `null`, `false`, 0 and "" are written. */
  lemma OnlyUndefinedIsSkipped(caps: seq<string>, c: string, a: Arg)
    requires c in caps
    ensures Decide(caps, Update(c, a)).Written? <==> !Resolve(a).Undefined?
    ensures Decide(caps, Update(c, Literal(Null))) == Written(Null)
    ensures Decide(caps, Update(c, Literal(Bool(false)))) == Written(Bool(false))
    ensures Decide(caps, Update(c, Literal(Num(0.0)))) == Written(Num(0.0))
    ensures Decide(caps, Update(c, Deferred(Undefined))) == SkippedUndefined
    ensures Decide(caps, Update(c, Throws)) == Threw
  {
  }

  /** The capability-store values after the updates `us`, in order, on a
      device whose capability list is `caps`, when the platform rejects every
      write to a capability of `rejected`. */
  function Store(values: map<string, Value>, caps: seq<string>, us: seq<Update>, rejected: set<string>): map<string, Value>
  {
    if us == [] then values
    else
      var m := Store(values, caps, us[..|us| - 1], rejected);
      var u := us[|us| - 1];
      match Decide(caps, u)
      case Written(v) => if u.capability in rejected then m else m[u.capability := v]
      case _ => m
  }

  /** The `setCapabilityValue` calls the updates `us` make, in order. */
  function Writes(caps: seq<string>, us: seq<Update>): seq<(string, Value)>
  {
    if us == [] then []
    else
      var u := us[|us| - 1];
      Writes(caps, us[..|us| - 1]) +
        match Decide(caps, u)
        case Written(v) => [(u.capability, v)]
        case _ => []
  }

  /** The capabilities the updates name. */
  function Named(us: seq<Update>): (r: set<string>)
    ensures forall i :: 0 <= i < |us| ==> us[i].capability in r
    ensures forall c :: c in r ==> exists i :: 0 <= i < |us| && us[i].capability == c
  {
    set i | 0 <= i < |us| :: us[i].capability
  }

  /** Every write goes to a supported capability and carries a defined value,
      and there is at most one per update. */
  lemma {:induction false} WritesAreGuarded(caps: seq<string>, us: seq<Update>)
    ensures |Writes(caps, us)| <= |us|
    ensures forall w :: w in Writes(caps, us) ==> w.0 in caps && w.0 in Named(us) && !w.1.Undefined?
  {
    if us != [] {
      WritesAreGuarded(caps, us[..|us| - 1]);
      assert Named(us[..|us| - 1]) <= Named(us) by {
        forall c | c in Named(us[..|us| - 1]) ensures c in Named(us) {
          var i :| 0 <= i < |us| - 1 && us[..|us| - 1][i].capability == c;
          assert us[i].capability == c;
        }
      }
    }
  }

  /** A capability that no update names, that the device does not support, or
      whose writes are rejected keeps its stored value. */
  lemma {:induction false} StoreKeepsUntouched(values: map<string, Value>, caps: seq<string>, us: seq<Update>, rejected: set<string>, c: string)
    requires c !in Named(us) || c !in caps || c in rejected
    ensures c in Store(values, caps, us, rejected) <==> c in values
    ensures c in values ==> Store(values, caps, us, rejected)[c] == values[c]
  {
    if us != [] {
      var init := us[..|us| - 1];
      assert c !in Named(us) ==> c !in Named(init) by {
        if c in Named(init) {
          var i :| 0 <= i < |init| && init[i].capability == c;
          assert us[i].capability == c;
        }
      }
      StoreKeepsUntouched(values, caps, init, rejected, c);
    }
  }

  /** An update that names another capability leaves `c` as it was. */
  lemma StoreStepOther(values: map<string, Value>, caps: seq<string>, us: seq<Update>, u: Update, rejected: set<string>, c: string)
    requires u.capability != c
    ensures var before, after := Store(values, caps, us, rejected), Store(values, caps, us + [u], rejected);
      (c in after <==> c in before) && (c in before ==> after[c] == before[c])
  {
    assert (us + [u])[..|us|] == us;
  }

  /** The last accepted write to a capability decides its stored value. */
  lemma {:induction false} StoreLastWriteWins(values: map<string, Value>, caps: seq<string>, pre: seq<Update>, a: Arg, post: seq<Update>, rejected: set<string>, c: string)
    requires c in caps && c !in rejected && !Resolve(a).Undefined?
    requires c !in Named(post)
    ensures var s := Store(values, caps, pre + [Update(c, a)] + post, rejected);
      c in s && s[c] == Resolve(a)
  {
    if post == [] {
      assert pre + [Update(c, a)] + post == pre + [Update(c, a)];
      assert (pre + [Update(c, a)])[..|pre|] == pre;
    } else {
      var init := post[..|post| - 1];
      var last := post[|post| - 1];
      assert pre + [Update(c, a)] + post == (pre + [Update(c, a)] + init) + [last];
      StoreLastWriteWins(values, caps, pre, a, init, rejected, c);
      StoreStepOther(values, caps, pre + [Update(c, a)] + init, last, rejected, c);
    }
  }

  lemma StoreSkip(values: map<string, Value>, caps: seq<string>, us: seq<Update>, u: Update, rejected: set<string>)
    requires Resolve(u.arg).Undefined?
    ensures Store(values, caps, us + [u], rejected) == Store(values, caps, us, rejected)
  {
    assert (us + [u])[..|us|] == us;
  }

  /** Updates that do not name `c` leave it as the earlier updates left it. */
  lemma {:induction false} StoreKeepsUntouchedFrom(values: map<string, Value>, caps: seq<string>, pre: seq<Update>, post: seq<Update>, rejected: set<string>, c: string)
    requires c !in Named(post)
    ensures var s, t := Store(values, caps, pre, rejected), Store(values, caps, pre + post, rejected);
      (c in t <==> c in s) && (c in s ==> t[c] == s[c])
  {
    if post == [] {
      assert pre + post == pre;
    } else {
      var init := post[..|post| - 1];
      assert pre + post == (pre + init) + [post[|post| - 1]];
      assert c !in Named(init);
      StoreKeepsUntouchedFrom(values, caps, pre, init, rejected, c);
      StoreStepOther(values, caps, pre + init, post[|post| - 1], rejected, c);
    }
  }

  /** The stored value of `c` went from `before` to `after` by one `update`
      with value `v`: it holds `v` if the write was made and accepted, and is
      as it was otherwise. */
  predicate Applied(before: map<string, Value>, after: map<string, Value>, caps: seq<string>, rejected: set<string>, c: string, v: Value) {
    if c in caps && c !in rejected && !v.Undefined? then c in after && after[c] == v
    else (c in after <==> c in before) && (c in before ==> after[c] == before[c])
  }

  /** When only the `k`-th update names its capability, the handler leaves
      that capability as that one update would. */
  lemma StoreSoleUpdate(values: map<string, Value>, caps: seq<string>, us: seq<Update>, rejected: set<string>, k: nat)
    requires k < |us|
    requires forall i :: 0 <= i < |us| && i != k ==> us[i].capability != us[k].capability
    ensures Applied(values, Store(values, caps, us, rejected), caps, rejected, us[k].capability, Resolve(us[k].arg))
  {
    var c := us[k].capability;
    var pre, post := us[..k], us[k + 1..];
    assert us == pre + [us[k]] + post;
    assert c !in Named(post);
    if c in caps && c !in rejected && !Resolve(us[k].arg).Undefined? {
      assert us[k] == Update(c, us[k].arg);
      StoreLastWriteWins(values, caps, pre, us[k].arg, post, rejected, c);
    } else {
      assert c !in Named(pre);
      StoreKeepsUntouched(values, caps, pre, rejected, c);
      assert Store(values, caps, pre + [us[k]], rejected) == Store(values, caps, pre, rejected) by {
        assert (pre + [us[k]])[..|pre|] == pre;
      }
      StoreKeepsUntouchedFrom(values, caps, pre + [us[k]], post, rejected, c);
    }
  }

  /** A value function that throws rejects only its own `update` call: the
      handler's other updates store and write exactly what they would without it. */
  lemma {:induction false} ThrowIsIsolated(values: map<string, Value>, caps: seq<string>, pre: seq<Update>, c: string, post: seq<Update>, rejected: set<string>)
    ensures Store(values, caps, pre + [Update(c, Throws)] + post, rejected) == Store(values, caps, pre + post, rejected)
    ensures Writes(caps, pre + [Update(c, Throws)] + post) == Writes(caps, pre + post)
  {
    var u := Update(c, Throws);
    if post == [] {
      assert pre + [u] + post == pre + [u];
      assert pre + post == pre;
      assert (pre + [u])[..|pre|] == pre;
    } else {
      var init, last := post[..|post| - 1], post[|post| - 1];
      ThrowIsIsolated(values, caps, pre, c, init, rejected);
      assert pre + [u] + post == (pre + [u] + init) + [last];
      assert pre + post == (pre + init) + [last];
      assert ((pre + [u] + init) + [last])[..|pre + [u] + init|] == pre + [u] + init;
      assert ((pre + init) + [last])[..|pre + init|] == pre + init;
    }
  }

  /** One `addCapability` or `removeCapability` call on the platform. */
  datatype CapabilityCall = Added(capability: string) | Removed(capability: string)

  /** `error` as `handleApiError` reads it: its `status` and its `error` code. */
  datatype ApiError = ApiError(status: Value, error: Value)

  /** What `handleApiError` throws: a new error with a translated message, or the error itself. */
  datatype Thrown = Translated(message: Value) | Rethrown(original: ApiError)

  /** `homey.__(key)` for a translation table; a missing key is `undefined`. */
  function Translate(translations: map<string, string>, key: string): Value {
    if key in translations then Str(translations[key]) else Undefined
  }

  predicate IsStatus(status: Value, code: int) {
    status == Num(code as real) || status == Str(if code == 401 then "401" else "402")
  }

  /** A 401 or 402 status, which makes the device unavailable. */
  predicate DeniesAccess(e: ApiError) {
    IsStatus(e.status, 401) || IsStatus(e.status, 402)
  }

  /** The message key of a denied-access status. */
  function DeniedKey(e: ApiError): string {
    if IsStatus(e.status, 401) then "error.401" else "error.402"
  }

  /** What `handleApiError` throws. */
  function Classify(e: ApiError, translations: map<string, string>): Thrown {
    if DeniesAccess(e) then Translated(Translate(translations, DeniedKey(e)))
    else if e.error.Str? && e.error.s != "" &&
            Truthy(Translate(translations, "error." + e.error.s)) &&
            Translate(translations, "error." + e.error.s) != Str("error." + e.error.s)
    then Translated(Translate(translations, "error." + e.error.s))
    else Rethrown(e)
  }

  /** The three outcomes of `handleApiError`. */
  lemma ClassifyCases(e: ApiError, translations: map<string, string>)
    ensures IsStatus(e.status, 401) ==> Classify(e, translations) == Translated(Translate(translations, "error.401"))
    ensures IsStatus(e.status, 402) && !IsStatus(e.status, 401) ==>
      Classify(e, translations) == Translated(Translate(translations, "error.402"))
    ensures !DeniesAccess(e) && e.error.Str? && e.error.s != "" && ("error." + e.error.s) in translations ==>
      var t := translations["error." + e.error.s];
      Classify(e, translations) == if t != "" && t != "error." + e.error.s then Translated(Str(t)) else Rethrown(e)
    ensures !DeniesAccess(e) && !(e.error.Str? && ("error." + e.error.s) in translations) ==>
      Classify(e, translations) == Rethrown(e)
  {
  }

  class TeslemetryDevice {
    /** `getCapabilities()` */
    var capabilities: seq<string>
    /** The platform's stored capability values. */
    var values: map<string, Value>
    /** Every `setCapabilityValue(capability, value)` call, in order. */
    var writes: seq<(string, Value)>
    /** Every `addCapability` / `removeCapability` call, in order. */
    var capabilityCalls: seq<CapabilityCall>
    var available: bool
    /** The message of the last `setUnavailable`. */
    var unavailableMessage: Value

    constructor (capabilities: seq<string>, values: map<string, Value>)
      ensures this.capabilities == capabilities && this.values == values
      ensures writes == [] && capabilityCalls == [] && available && unavailableMessage == Undefined
    {
      this.capabilities := capabilities;
      this.values := values;
      writes := [];
      capabilityCalls := [];
      available := true;
      unavailableMessage := Undefined;
    }

    /** `update(capability, value)`; `rejects` says whether the platform
        rejects the write, which is caught and never reaches the caller. */
    method Update(u: Update, rejects: bool) returns (o: Outcome)
      modifies this
      ensures o == Decide(old(capabilities), u)
      ensures writes == old(writes) + (if o.Written? then [(u.capability, o.value)] else [])
      ensures values == if o.Written? && !rejects then old(values)[u.capability := o.value] else old(values)
      ensures capabilities == old(capabilities) && capabilityCalls == old(capabilityCalls)
      ensures available == old(available) && unavailableMessage == old(unavailableMessage)
    {
      if u.capability !in capabilities {
        return NotSupported;
      }
      if u.arg.Throws? {
        return Threw;
      }
      var value := Resolve(u.arg);
      if value.Undefined? {
        return SkippedUndefined;
      }
      writes := writes + [(u.capability, value)];
      if !rejects {
        values := values[u.capability := value];
      }
      o := Written(value);
    }

    /** The updates of one handler, in order. */
    method ApplyAll(us: seq<Update>, rejected: set<string>)
      modifies this
      ensures values == Store(old(values), old(capabilities), us, rejected)
      ensures writes == old(writes) + Writes(old(capabilities), us)
      ensures capabilities == old(capabilities) && capabilityCalls == old(capabilityCalls)
      ensures available == old(available) && unavailableMessage == old(unavailableMessage)
    {
      var i := 0;
      while i < |us|
        invariant 0 <= i <= |us|
        invariant values == Store(old(values), old(capabilities), us[..i], rejected)
        invariant writes == old(writes) + Writes(old(capabilities), us[..i])
        invariant capabilities == old(capabilities) && capabilityCalls == old(capabilityCalls)
        invariant available == old(available) && unavailableMessage == old(unavailableMessage)
      {
        assert us[..i + 1][..i] == us[..i];
        var o := Update(us[i], us[i].capability in rejected);
        i := i + 1;
      }
      assert us[..i] == us;
    }

    /** `addCapability(c)` */
    method AddCapability(c: string)
      modifies this
      ensures capabilities == Seqs.Insert(old(capabilities), c)
      ensures capabilityCalls == old(capabilityCalls) + [Added(c)]
      ensures values == old(values) && writes == old(writes)
      ensures available == old(available) && unavailableMessage == old(unavailableMessage)
    {
      if c !in capabilities {
        capabilities := capabilities + [c];
      }
      capabilityCalls := capabilityCalls + [Added(c)];
    }

    /** `removeCapability(c)` */
    method RemoveCapability(c: string)
      modifies this
      ensures capabilities == Seqs.Without(old(capabilities), c)
      ensures capabilityCalls == old(capabilityCalls) + [Removed(c)]
      ensures values == old(values) && writes == old(writes)
      ensures available == old(available) && unavailableMessage == old(unavailableMessage)
    {
      capabilities := Seqs.Without(capabilities, c);
      capabilityCalls := capabilityCalls + [Removed(c)];
    }

    /** `handleApiError(error)`: it always throws; a denied-access status
        also marks the device unavailable with the thrown message. */
    method HandleApiError(e: ApiError, translations: map<string, string>) returns (thrown: Thrown)
      modifies this
      ensures thrown == Classify(e, translations)
      ensures DeniesAccess(e) ==> !available && unavailableMessage == thrown.message
      ensures !DeniesAccess(e) ==> available == old(available) && unavailableMessage == old(unavailableMessage)
      ensures capabilities == old(capabilities) && values == old(values)
      ensures writes == old(writes) && capabilityCalls == old(capabilityCalls)
    {
      if e.status == Num(401.0) || e.status == Str("401") {
        var msg := Translate(translations, "error.401");
        available := false;
        unavailableMessage := msg;
        return Translated(msg);
      } else if e.status == Num(402.0) || e.status == Str("402") {
        var msg := Translate(translations, "error.402");
        available := false;
        unavailableMessage := msg;
        return Translated(msg);
      }
      if e.error.Str? && e.error.s != "" {
        var key := "error." + e.error.s;
        var translated := Translate(translations, key);
        if Truthy(translated) && translated != Str(key) {
          return Translated(translated);
        }
      }
      thrown := Rethrown(e);
    }
  }

  /** Update calls on one handler's values leave every capability no update
      names, and every value the platform rejects, as it was. */
  method UpdatesAreIsolated(d: TeslemetryDevice, us: seq<Update>, rejected: set<string>, c: string)
    requires c in d.values && (c !in Named(us) || c !in d.capabilities || c in rejected)
    modifies d
    ensures c in d.values && d.values[c] == old(d.values[c])
  {
    StoreKeepsUntouched(d.values, d.capabilities, us, rejected, c);
    d.ApplyAll(us, rejected);
  }
}
