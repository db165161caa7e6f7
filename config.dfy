/** The debug switch (libs/class-config.php): reading WP_DEBUG, deciding
    whether wp-config.php can be rewritten, and rewriting its three debug
    constants through WPConfigTransformer, a foreign library modelled here as
    an object whose answers come from an oracle. */
module Config {
  import opened Php

  /** `filter_var($v, FILTER_VALIDATE_BOOLEAN)`: whether the value is one
      PHP accepts as boolean true. */
  predicate ValidatesAsTrue(v: Value) {
    match v
    case Null => false
    case Bool(b) => b
    case Int(i) => i == 1
    case Str(s) => Lower(Trim(s)) in ["1", "true", "on", "yes"]
    case Arr(_) => false
  }

  /** `maybe_bool_to_string($v)`: strings pass through; anything else
      becomes the PHP literal `'true'` or `'false'`. */
  function MaybeBoolToString(v: Value): (r: string)
    ensures v.Str? ==> r == v.s
    ensures !v.Str? ==> (r == "true" || r == "false") && (r == "true" <==> ValidatesAsTrue(v))
  {
    if !v.Str? then (if ValidatesAsTrue(v) then "true" else "false") else v.s
  }

  /** `debug_status_detected()`: whether WP_DEBUG is defined. `wpDebug` is
      the constant's value, None when it is not defined. */
  predicate DebugStatusDetected(wpDebug: Option<Value>) {
    wpDebug.Some?
  }

  /** `debug_enabled()`: WP_DEBUG is defined and is `true` or `'true'`. */
  predicate DebugEnabled(wpDebug: Option<Value>)
    ensures DebugEnabled(wpDebug) ==> DebugStatusDetected(wpDebug)
  {
    wpDebug == Some(Bool(true)) || wpDebug == Some(Str("true"))
  }

  /** `is_debug_toggleable()`: wp-config.php exists and the file system
      reports it writable (both facts come from the host). */
  predicate IsDebugToggleable(configExists: bool, configWritable: bool) {
    configExists && configWritable
  }

  /** `debug_enabled()` compares strictly: every value it accepts is one
      PHP also reads as true, but a WP_DEBUG defined as 1 or '1' is
      detected and still not reported enabled. */
  lemma StrictDebugReading(wpDebug: Option<Value>)
    ensures !DebugStatusDetected(None) && !DebugEnabled(None)
    ensures DebugEnabled(wpDebug) ==> DebugStatusDetected(wpDebug) && ValidatesAsTrue(wpDebug.value)
    ensures DebugStatusDetected(Some(Int(1))) && ValidatesAsTrue(Int(1)) && !DebugEnabled(Some(Int(1)))
    ensures DebugStatusDetected(Some(Str("1"))) && !DebugEnabled(Some(Str("1")))
  {
    if wpDebug == Some(Str("true")) {
      TrueLiteral(wpDebug.value.s);
    }
  }

  lemma TrueLiteral(s: string)
    requires s == "true"
    ensures Lower(Trim(s)) == "true"
  {
    assert s[0] == 't' && s[|s| - 1] == 'e';
    assert Trim(s) == s;
    assert forall i :: 0 <= i < |s| ==> LowerChar(s[i]) == s[i];
  }

  /** One `update('constant', name, value, ...)` call on the transformer. */
  datatype ConstUpdate = ConstUpdate(name: string, value: string)

  /** What a transformer call does: return a boolean, or throw. */
  datatype Reply = Returned(ok: bool) | Threw

  /** A WPConfigTransformer bound to wp-config.php. Its behaviour is not
      modelled: `reply(n, u)` is its answer to its n-th update call `u`. */
  class ConfigTransformer {
    const reply: (nat, ConstUpdate) -> Reply
    /** The update calls made so far, in order. */
    var issued: seq<ConstUpdate>

    constructor (reply: (nat, ConstUpdate) -> Reply)
      ensures this.reply == reply && issued == []
    {
      this.reply := reply;
      issued := [];
    }

    method Update(u: ConstUpdate) returns (r: Reply)
      modifies this
      ensures issued == old(issued) + [u]
      ensures r == reply(|old(issued)|, u)
    {
      r := reply(|issued|, u);
      issued := issued + [u];
    }
  }

  /** The constants `update_debug_status($status)` sets, in order, with
      their values before conversion. */
  function DebugVars(status: bool): seq<(string, Value)> {
    [("WP_DEBUG", Bool(status)), ("WP_DEBUG_LOG", Bool(status)), ("WP_DEBUG_DISPLAY", Bool(false))]
  }

  /** The update calls made for a list of constants, each value converted
      with maybe_bool_to_string. */
  function Plan(vars: seq<(string, Value)>): (plan: seq<ConstUpdate>)
    ensures |plan| == |vars|
    ensures forall i :: 0 <= i < |vars| ==> plan[i] == ConstUpdate(vars[i].0, MaybeBoolToString(vars[i].1))
  {
    seq(|vars|, i requires 0 <= i < |vars| => ConstUpdate(vars[i].0, MaybeBoolToString(vars[i].1)))
  }

  /** The update calls `update_debug_status($status)` plans. */
  function DebugPlan(status: bool): (plan: seq<ConstUpdate>)
    ensures |plan| == 3
  {
    Plan(DebugVars(status))
  }

  /** The planned calls spelled out: WP_DEBUG and WP_DEBUG_LOG get the PHP
      literal of the status, WP_DEBUG_DISPLAY gets `false`. */
  /** The literal PHP reads back from a raw constant value that is one of
      the two boolean literals. */
  function BoolLiteral(code: string): Option<bool> {
    if code == "true" then Some(true) else if code == "false" then Some(false) else None
  }

  lemma DebugPlanValues(status: bool)
    ensures var plan := DebugPlan(status);
      && plan[0] == ConstUpdate("WP_DEBUG", if status then "true" else "false")
      && plan[1] == ConstUpdate("WP_DEBUG_LOG", if status then "true" else "false")
      && plan[2] == ConstUpdate("WP_DEBUG_DISPLAY", "false")
      && BoolLiteral(plan[0].value) == Some(status)
      && BoolLiteral(plan[1].value) == Some(status)
  {
  }

  /** The calls made and the value returned by a run of the update loop. */
  datatype Run = Run(issued: seq<ConstUpdate>, result: bool)

  /** The update loop from call `j` on, with `newStatus` the WP_DEBUG
      answer so far; the calls are numbered from `base` for the oracle.
      A throw ends the loop and makes the result false. */
  function RunFrom(plan: seq<ConstUpdate>, reply: (nat, ConstUpdate) -> Reply, base: nat, j: nat, newStatus: bool): Run
    requires j <= |plan|
    decreases |plan| - j
  {
    if j == |plan| then Run([], newStatus)
    else match reply(base + j, plan[j])
      case Threw => Run([plan[j]], false)
      case Returned(b) =>
        var rest := RunFrom(plan, reply, base, j + 1, if plan[j].name == "WP_DEBUG" then b else newStatus);
        Run([plan[j]] + rest.issued, rest.result)
  }

  /** What `update_debug_status($status)` does against a transformer whose
      earlier calls number `base`. */
  function DebugRun(status: bool, writable: bool, reply: (nat, ConstUpdate) -> Reply, base: nat): Run {
    if !writable then Run([], false) else RunFrom(DebugPlan(status), reply, base, 0, false)
  }

  /** How a call that may let an exception escape ends: with a returned
      boolean, or with the exception propagating to the caller. */
  datatype Outcome = Finished(status: bool) | Escaped

  /** The effect of `update_debug_status($status)` on the transformer `t`
      (null when its constructor threw) and the way the call ends: false
      without any call when wp-config.php is not writable, the escaped
      exception when the transformer could not be built, and otherwise the
      calls and the result of the reference run. */
  twostate predicate UpdateReport(status: bool, writable: bool, t: ConfigTransformer?, outcome: Outcome)
    reads t
  {
    && (t != null ==> t.issued == old(t.issued) + DebugRun(status, writable, t.reply, |old(t.issued)|).issued)
    && outcome == if !writable then Finished(false)
                  else if t == null then Escaped
                  else Finished(DebugRun(status, true, t.reply, |old(t.issued)|).result)
  }

  /** `update_debug_status($status)`: refuses when wp-config.php is not
      writable; otherwise constructs the transformer, sets the three
      constants in order, stops at the first exception, and returns the
      transformer's answer for WP_DEBUG (false after any exception). The
      constructor runs outside the try block: `t` is the object it built,
      or null when it threw, and that exception escapes. */
  method UpdateDebugStatus(status: bool, writable: bool, t: ConfigTransformer?) returns (outcome: Outcome)
    modifies t
    ensures UpdateReport(status, writable, t, outcome)
  {
    if !writable {
      return Finished(false);
    }
    if t == null {
      return Escaped;
    }
    var newStatus := UpdateConstants(DebugVars(status), t);
    outcome := Finished(newStatus);
  }

  /** The try block of `update_debug_status`: one transformer call per
      constant, in order; an exception is caught, ends the loop and makes
      the result false; otherwise the result is the answer for WP_DEBUG
      (false when WP_DEBUG is not among the constants). */
  method UpdateConstants(vars: seq<(string, Value)>, t: ConfigTransformer) returns (newStatus: bool)
    modifies t
    ensures var run := RunFrom(Plan(vars), t.reply, |old(t.issued)|, 0, false);
      t.issued == old(t.issued) + run.issued && newStatus == run.result
  {
    ghost var plan := Plan(vars);
    ghost var base := |t.issued|;
    ghost var run := RunFrom(plan, t.reply, base, 0, false);
    assert plan[..0] + run.issued == run.issued;
    newStatus := false;
    var i := 0;
    while i < |vars|
      invariant 0 <= i <= |vars|
      invariant t.issued == old(t.issued) + plan[..i]
      invariant Accounts(plan, t.reply, base, i, newStatus, run)
    {
      var (name, value) := vars[i];
      var u := ConstUpdate(name, MaybeBoolToString(value));
      LoopStep(plan, t.reply, base, i, newStatus, run, old(t.issued));
      var reply := t.Update(u);
      if reply.Threw? {
        // The exception is caught: the remaining constants are not updated.
        newStatus := false;
        return;
      }
      if name == "WP_DEBUG" {
        newStatus := reply.ok;
      }
      i := i + 1;
    }
    LoopDone(plan, t.reply, base, newStatus, run);
  }

  /** The loop's account of a run: the first `i` calls are made, and the
      rest of the run is what the loop does from call `i` on. */
  predicate Accounts(plan: seq<ConstUpdate>, reply: (nat, ConstUpdate) -> Reply, base: nat, i: nat, newStatus: bool, run: Run) {
    i <= |plan|
    && run.issued == plan[..i] + RunFrom(plan, reply, base, i, newStatus).issued
    && run.result == RunFrom(plan, reply, base, i, newStatus).result
  }

  /** One call of the update loop keeps the loop's account of the run. */
  lemma LoopStep(plan: seq<ConstUpdate>, reply: (nat, ConstUpdate) -> Reply, base: nat, i: nat, newStatus: bool, run: Run, prior: seq<ConstUpdate>)
    requires i < |plan| && Accounts(plan, reply, base, i, newStatus, run)
    ensures prior + plan[..i] + [plan[i]] == prior + plan[..i + 1]
    ensures reply(base + i, plan[i]).Threw? ==> run == Run(plan[..i + 1], false)
    ensures reply(base + i, plan[i]).Returned? ==>
      Accounts(plan, reply, base, i + 1, if plan[i].name == "WP_DEBUG" then reply(base + i, plan[i]).ok else newStatus, run)
  {
    assert plan[..i + 1] == plan[..i] + [plan[i]];
    assert prior + plan[..i] + [plan[i]] == prior + (plan[..i] + [plan[i]]);
    if reply(base + i, plan[i]).Returned? {
      var next := if plan[i].name == "WP_DEBUG" then reply(base + i, plan[i]).ok else newStatus;
      var rest := RunFrom(plan, reply, base, i + 1, next);
      assert plan[..i] + ([plan[i]] + rest.issued) == plan[..i + 1] + rest.issued;
    }
  }

  lemma LoopDone(plan: seq<ConstUpdate>, reply: (nat, ConstUpdate) -> Reply, base: nat, newStatus: bool, run: Run)
    requires Accounts(plan, reply, base, |plan|, newStatus, run)
    ensures run == Run(plan, newStatus)
  {
    assert plan[..|plan|] + [] == plan;
  }

  /** `set_debugging_status($status)`. */
  method SetDebuggingStatus(status: bool, writable: bool, t: ConfigTransformer?) returns (r: Outcome)
    modifies t
    ensures UpdateReport(status, writable, t, r)
  {
    r := UpdateDebugStatus(status, writable, t);
  }

  /** `enable_debugging()`: `update_debug_status(true)`. */
  method EnableDebugging(writable: bool, t: ConfigTransformer?) returns (r: Outcome)
    modifies t
    ensures UpdateReport(true, writable, t, r)
  {
    r := SetDebuggingStatus(true, writable, t);
  }

  /** `disable_debugging()`: `update_debug_status(false)`. */
  method DisableDebugging(writable: bool, t: ConfigTransformer?) returns (r: Outcome)
    modifies t
    ensures UpdateReport(false, writable, t, r)
  {
    r := SetDebuggingStatus(false, writable, t);
  }

  /** An unwritable wp-config.php is never touched and the update fails. */
  lemma NotWritableNoUpdate(status: bool, reply: (nat, ConstUpdate) -> Reply, base: nat)
    ensures DebugRun(status, false, reply, base) == Run([], false)
  {
  }

  /** The update reports success exactly when the WP_DEBUG call returned
      true and none of the three calls threw. */
  lemma {:induction false} DebugRunResult(status: bool, reply: (nat, ConstUpdate) -> Reply, base: nat)
    ensures var plan := DebugPlan(status);
      DebugRun(status, true, reply, base).result <==>
        && reply(base, plan[0]) == Returned(true)
        && reply(base + 1, plan[1]) != Threw
        && reply(base + 2, plan[2]) != Threw
  {
    var plan := DebugPlan(status);
    DebugPlanValues(status);
    assert plan[1].name != "WP_DEBUG" && plan[2].name != "WP_DEBUG";
    match reply(base, plan[0])
    case Threw =>
    case Returned(b0) =>
      assert plan[0].name == "WP_DEBUG";
      match reply(base + 1, plan[1])
      case Threw =>
        assert RunFrom(plan, reply, base, 1, b0) == Run([plan[1]], false);
      case Returned(b1) =>
        var r2 := RunFrom(plan, reply, base, 2, b0);
        if reply(base + 2, plan[2]).Returned? {
          assert RunFrom(plan, reply, base, 3, b0) == Run([], b0);
          assert r2.result == b0;
        } else {
          assert r2 == Run([plan[2]], false);
        }
        var r1 := RunFrom(plan, reply, base, 1, b0);
        assert r1 == Run([plan[1]] + r2.issued, r2.result);
        assert plan[0].name == "WP_DEBUG";
        assert RunFrom(plan, reply, base, 0, false) == Run([plan[0]] + r1.issued, r1.result);
  }

  /** The calls are made in the planned order and stop only at an
      exception: what is issued is a non-empty prefix of the plan, cut short
      only right after a call that threw. */
  lemma {:induction false} DebugRunIssued(status: bool, reply: (nat, ConstUpdate) -> Reply, base: nat)
    ensures var plan := DebugPlan(status);
      var issued := DebugRun(status, true, reply, base).issued;
      && 1 <= |issued| <= 3
      && issued == plan[..|issued|]
      && (|issued| < 3 ==> reply(base + |issued| - 1, plan[|issued| - 1]) == Threw)
  {
    var plan := DebugPlan(status);
    DebugPlanValues(status);
    assert plan[1].name != "WP_DEBUG" && plan[2].name != "WP_DEBUG";
    match reply(base, plan[0])
    case Threw =>
      assert plan[..1] == [plan[0]];
    case Returned(b0) =>
      match reply(base + 1, plan[1])
      case Threw =>
        assert plan[..2] == [plan[0], plan[1]];
      case Returned(b1) =>
        assert plan[..3] == [plan[0], plan[1], plan[2]];
        var r2 := RunFrom(plan, reply, base, 2, b0);
        if reply(base + 2, plan[2]).Returned? {
          assert RunFrom(plan, reply, base, 3, b0) == Run([], b0);
          assert r2.result == b0;
        } else {
          assert r2 == Run([plan[2]], false);
        }
        var r1 := RunFrom(plan, reply, base, 1, b0);
        assert r1 == Run([plan[1]] + r2.issued, r2.result);
        assert plan[0].name == "WP_DEBUG";
        assert RunFrom(plan, reply, base, 0, false) == Run([plan[0]] + r1.issued, r1.result);
  }

  /** The status can be toggled exactly when wp-config.php exists and an
      update of it is attempted: the WP_DEBUG call is made when the file is
      writable, and no call at all otherwise. */
  lemma ToggleableIffAttempted(status: bool, configExists: bool, writable: bool,
                               reply: (nat, ConstUpdate) -> Reply, base: nat)
    ensures IsDebugToggleable(configExists, writable) <==>
      configExists && DebugRun(status, writable, reply, base).issued != []
    ensures IsDebugToggleable(configExists, writable) ==>
      DebugRun(status, writable, reply, base).issued[0] == DebugPlan(status)[0]
  {
    if writable {
      DebugRunIssued(status, reply, base);
    }
  }
}
