/** The environment of the session process and its copies in systemd and in the D-Bus activation environment. */
module EnvironmentSpec {
  import opened Wrappers

  type Vars = map<string, string>

  datatype Env = Env(process: Vars, systemd: Vars, activation: Vars, systemdEnabled: bool)

  const LOGIN_KEYS := {"XDG_SEAT", "XDG_SESSION_CLASS", "XDG_SESSION_DESKTOP", "XDG_SESSION_ID",
                       "XDG_SESSION_TYPE", "XDG_VTNR"}

  predicate Allowed(key: string) {
    key !in LOGIN_KEYS && !("BASH_FUNC" <= key)
  }

  function AllowedOf(vars: Vars): Vars {
    map k | k in vars && Allowed(k) :: vars[k]
  }

  /** Session::uploadEnvironment, with the outcomes of its two calls. */
  function Upload(e: Env, busOk: bool, systemdOk: bool): Env {
    var sent := AllowedOf(e.process);
    e.(activation := if busOk then e.activation + sent else e.activation,
       systemd := if e.systemdEnabled && systemdOk then e.systemd + sent else e.systemd)
  }

  function Unset(e: Env, key: string, systemdOk: bool): Env {
    e.(process := e.process - {key},
       systemd := if e.systemdEnabled && systemdOk then e.systemd - {key} else e.systemd)
  }

  datatype EnvStep =
    | SetVar(key: string, value: string, busOk: bool, systemdOk: bool)
    | UnsetVar(key: string, systemdOk: bool)

  function EnvApply(e: Env, step: EnvStep): Env {
    match step
    case SetVar(k, v, busOk, systemdOk) => Upload(e.(process := e.process[k := v]), busOk, systemdOk)
    case UnsetVar(k, systemdOk) => Unset(e, k, systemdOk)
  }

  function EnvExec(e: Env, steps: seq<EnvStep>): Env
    decreases |steps|
  {
    if steps == [] then e else EnvExec(EnvApply(e, steps[0]), steps[1..])
  }

  lemma {:induction false} EnvExecAppend(e: Env, a: seq<EnvStep>, b: seq<EnvStep>)
    ensures EnvExec(e, a + b) == EnvExec(EnvExec(e, a), b)
    decreases |a|
  {
    if a == [] {
      assert a + b == b;
    } else {
      assert (a + b)[0] == a[0] && (a + b)[1..] == a[1..] + b;
      EnvExecAppend(EnvApply(e, a[0]), a[1..], b);
    }
  }

  /** What a module asks for while it starts; modules can only set variables. */
  type SetRequest = r: EnvStep | r.SetVar? witness SetVar("", "", true, true)

  /** The requests of the first n modules started, where the i-th makes those of requests(i). */
  function RequestsOf(requests: nat -> seq<SetRequest>, n: nat): seq<EnvStep> {
    if n == 0 then [] else RequestsOf(requests, n - 1) + requests(n - 1)
  }

  // ---------- What sets and unsets do ----------

  /** The keys that are never published: six keys of the login session, and shell functions. */
  lemma AllowedIff(key: string)
    ensures Allowed(key) <==>
      && key != "XDG_SEAT" && key != "XDG_SESSION_CLASS" && key != "XDG_SESSION_DESKTOP" && key != "XDG_SESSION_ID"
      && key != "XDG_SESSION_TYPE" && key != "XDG_VTNR" && !(|key| >= 9 && key[..9] == "BASH_FUNC")
  {
  }

  /** Looking a variable up in an environment. */
  function Value(vars: Vars, key: string): Option<string> {
    if key in vars then Some(vars[key]) else None
  }

  /** A set stores the variable in the session, for every key. It then publishes the whole session: every allowed
      variable gets the session's value in each copy that accepts the upload, and nothing else changes. */
  lemma SetEffect(e: Env, k: string, v: string, busOk: bool, systemdOk: bool, x: string)
    ensures var t := EnvApply(e, SetVar(k, v, busOk, systemdOk));
      && Value(t.process, x) == (if x == k then Some(v) else Value(e.process, x))
      && Value(t.activation, x) == (if busOk && Allowed(x) && x in t.process then Value(t.process, x)
                                    else Value(e.activation, x))
      && Value(t.systemd, x) == (if e.systemdEnabled && systemdOk && Allowed(x) && x in t.process
                                 then Value(t.process, x) else Value(e.systemd, x))
      && t.systemdEnabled == e.systemdEnabled
  {
  }

  /** An unset removes the variable from the session and, if systemd is used and accepts it, from systemd, for
      every key; the bus is not told. */
  lemma UnsetEffect(e: Env, k: string, systemdOk: bool, x: string)
    ensures var t := EnvApply(e, UnsetVar(k, systemdOk));
      && Value(t.process, x) == (if x == k then None else Value(e.process, x))
      && Value(t.systemd, x) == (if x == k && e.systemdEnabled && systemdOk then None else Value(e.systemd, x))
      && t.activation == e.activation && t.systemdEnabled == e.systemdEnabled
  {
  }

  ghost predicate Untouched(steps: seq<EnvStep>, k: string) {
    forall i :: 0 <= i < |steps| ==> steps[i].key != k
  }

  /** A variable that no step is about keeps its value in the session. */
  lemma {:induction false} ProcessKept(e: Env, steps: seq<EnvStep>, k: string)
    requires Untouched(steps, k)
    ensures Value(EnvExec(e, steps).process, k) == Value(e.process, k)
    ensures EnvExec(e, steps).systemdEnabled == e.systemdEnabled
    decreases |steps|
  {
    if steps == [] {
    } else {
      ProcessKept(EnvApply(e, steps[0]), steps[1..], k);
    }
  }

  /** At the end of every run a variable has in the session the value of the last set of it, and is absent if
      the last step about it was an unset. */
  lemma {:induction false} LastSetWins(e: Env, steps: seq<EnvStep>, i: nat)
    requires i < |steps| && Untouched(steps[i + 1..], steps[i].key)
    ensures Value(EnvExec(e, steps).process, steps[i].key)
         == if steps[i].SetVar? then Some(steps[i].value) else None
    decreases i
  {
    if i == 0 {
      ProcessKept(EnvApply(e, steps[0]), steps[1..], steps[0].key);
    } else {
      assert steps[1..][i..] == steps[i + 1..];
      LastSetWins(EnvApply(e, steps[0]), steps[1..], i - 1);
    }
  }

  /** Some set among the steps whose upload the bus accepted, or systemd. */
  ghost predicate BusAccepts(steps: seq<EnvStep>) {
    exists j :: 0 <= j < |steps| && steps[j].SetVar? && steps[j].busOk
  }

  ghost predicate SystemdAccepts(steps: seq<EnvStep>) {
    exists j :: 0 <= j < |steps| && steps[j].SetVar? && steps[j].systemdOk
  }

  /** While nothing is done to a variable of the session, its copies change at the first accepted upload, and
      then to the session's value. */
  lemma {:induction false} CopiesRun(e: Env, steps: seq<EnvStep>, k: string)
    requires Untouched(steps, k) && k in e.process && Allowed(k)
    ensures Value(EnvExec(e, steps).activation, k)
         == if BusAccepts(steps) then Value(e.process, k) else Value(e.activation, k)
    ensures Value(EnvExec(e, steps).systemd, k)
         == if e.systemdEnabled && SystemdAccepts(steps) then Value(e.process, k) else Value(e.systemd, k)
    decreases |steps|
  {
    if steps == [] {
    } else {
      var t := EnvApply(e, steps[0]);
      assert steps == [steps[0]] + steps[1..];
      CopiesRun(t, steps[1..], k);
      OneStepCopies(e, steps[0], k);
      AcceptsFirst(steps);
    }
  }

  lemma OneStepCopies(e: Env, step: EnvStep, k: string)
    requires step.key != k && k in e.process && Allowed(k)
    ensures var t := EnvApply(e, step);
      && Value(t.process, k) == Value(e.process, k) && t.systemdEnabled == e.systemdEnabled
      && Value(t.activation, k) == (if step.SetVar? && step.busOk then Value(e.process, k) else Value(e.activation, k))
      && Value(t.systemd, k) == (if step.SetVar? && e.systemdEnabled && step.systemdOk then Value(e.process, k)
                                 else Value(e.systemd, k))
  {
    match step
    case SetVar(x, v, busOk, systemdOk) => SetEffect(e, x, v, busOk, systemdOk, k);
    case UnsetVar(x, systemdOk) => UnsetEffect(e, x, systemdOk, k);
  }

  lemma AcceptsFirst(steps: seq<EnvStep>)
    requires steps != []
    ensures BusAccepts(steps) <==> (steps[0].SetVar? && steps[0].busOk) || BusAccepts(steps[1..])
    ensures SystemdAccepts(steps) <==> (steps[0].SetVar? && steps[0].systemdOk) || SystemdAccepts(steps[1..])
  {
    var rest := steps[1..];
    assert forall j :: 0 <= j < |rest| ==> rest[j] == steps[j + 1];
    if BusAccepts(steps) {
      var j :| 0 <= j < |steps| && steps[j].SetVar? && steps[j].busOk;
      assert j > 0 ==> rest[j - 1] == steps[j];
    }
    if SystemdAccepts(steps) {
      var j :| 0 <= j < |steps| && steps[j].SetVar? && steps[j].systemdOk;
      assert j > 0 ==> rest[j - 1] == steps[j];
    }
  }

  /** So a variable that is set and then left alone is at the end in the session with its value, and, if it is
      allowed, in the activation environment and in systemd as soon as one of the uploads from its own on is
      accepted there. */
  lemma SetArrives(e: Env, k: string, v: string, busOk: bool, systemdOk: bool, steps: seq<EnvStep>)
    requires Untouched(steps, k)
    ensures var t := EnvExec(EnvApply(e, SetVar(k, v, busOk, systemdOk)), steps);
      && Value(t.process, k) == Some(v)
      && (Allowed(k) && (busOk || BusAccepts(steps)) ==> Value(t.activation, k) == Some(v))
      && (Allowed(k) && e.systemdEnabled && (systemdOk || SystemdAccepts(steps)) ==> Value(t.systemd, k) == Some(v))
      && (!(busOk || BusAccepts(steps)) ==> Allowed(k) ==> Value(t.activation, k) == Value(e.activation, k))
      && (!(e.systemdEnabled && (systemdOk || SystemdAccepts(steps))) ==> Allowed(k) ==>
            Value(t.systemd, k) == Value(e.systemd, k))
  {
    var s := EnvApply(e, SetVar(k, v, busOk, systemdOk));
    SetEffect(e, k, v, busOk, systemdOk, k);
    ProcessKept(s, steps, k);
    if Allowed(k) {
      CopiesRun(s, steps, k);
    }
  }

  // ---------- The requests of starting modules ----------

  /** The requests of the i-th module follow those of the modules before it, and precede the others. */
  lemma {:induction false} RequestsInOrder(requests: nat -> seq<SetRequest>, i: nat, n: nat)
    requires i < n
    ensures RequestsOf(requests, i) + requests(i) <= RequestsOf(requests, n)
  {
    if i == n - 1 {
    } else {
      RequestsInOrder(requests, i, n - 1);
    }
  }

  // ---------- The mirror ----------

  /** systemd has exactly the allowed variables of the session, with their values. */
  ghost predicate Mirror(e: Env) {
    AllowedOf(e.systemd) == AllowedOf(e.process)
  }

  /** systemd has no allowed variable that the session lacks. */
  ghost predicate NoExtras(e: Env) {
    forall k :: k in e.systemd && Allowed(k) ==> k in e.process
  }

  /** A successful upload establishes the mirror if and only if systemd holds no allowed variable that the
      session lacks, whatever earlier uploads failed: an upload adds and overwrites, and never removes. */
  lemma UploadMirrorsIff(e: Env, busOk: bool)
    requires e.systemdEnabled
    ensures Mirror(Upload(e, busOk, true)) <==> NoExtras(e)
  {
  }

  /** The only step that can leave an extra variable behind is an unset that systemd refuses. */
  lemma ExtrasIff(e: Env, step: EnvStep)
    requires NoExtras(e) && e.systemdEnabled
    ensures NoExtras(EnvApply(e, step)) <==>
            !(step.UnsetVar? && !step.systemdOk && Allowed(step.key) && step.key in e.systemd)
  {
  }

  ghost predicate UnsetsSucceed(steps: seq<EnvStep>) {
    forall i :: 0 <= i < |steps| && steps[i].UnsetVar? ==> steps[i].systemdOk
  }

  ghost predicate AllSucceed(steps: seq<EnvStep>) {
    forall i :: 0 <= i < |steps| ==> steps[i].systemdOk
  }

  lemma {:induction false} NoExtrasRun(e: Env, steps: seq<EnvStep>)
    requires e.systemdEnabled && NoExtras(e) && UnsetsSucceed(steps)
    ensures NoExtras(EnvExec(e, steps)) && EnvExec(e, steps).systemdEnabled
    decreases |steps|
  {
    if steps == [] {
    } else {
      ExtrasIff(e, steps[0]);
      NoExtrasRun(EnvApply(e, steps[0]), steps[1..]);
    }
  }

  lemma MirrorStep(e: Env, step: EnvStep)
    requires e.systemdEnabled && Mirror(e) && step.systemdOk
    ensures Mirror(EnvApply(e, step))
  {
    assert forall k :: k in AllowedOf(e.systemd) <==> k in e.systemd && Allowed(k);
    assert forall k :: k in AllowedOf(e.process) <==> k in e.process && Allowed(k);
    assert NoExtras(e);
    match step
    case SetVar(k, v, busOk, systemdOk) => UploadMirrorsIff(e.(process := e.process[k := v]), busOk);
    case UnsetVar(k, systemdOk) =>
      var t := EnvApply(e, step);
      assert AllowedOf(t.systemd) == AllowedOf(e.systemd) - {k};
      assert AllowedOf(t.process) == AllowedOf(e.process) - {k};
  }

  lemma {:induction false} MirrorKept(e: Env, steps: seq<EnvStep>)
    requires e.systemdEnabled && Mirror(e) && AllSucceed(steps)
    ensures Mirror(EnvExec(e, steps))
    decreases |steps|
  {
    if steps == [] {
    } else {
      MirrorStep(e, steps[0]);
      MirrorKept(EnvApply(e, steps[0]), steps[1..]);
    }
  }

  /** After start, over every sequence of sets and unsets that systemd accepts, its environment restricted to
      the allowed keys is the session's, provided it held no extra allowed key before. */
  lemma MirrorRun(e: Env, busOk: bool, steps: seq<EnvStep>)
    requires e.systemdEnabled && NoExtras(e) && AllSucceed(steps)
    ensures Mirror(EnvExec(Upload(e, busOk, true), steps))
  {
    UploadMirrorsIff(e, busOk);
    MirrorKept(Upload(e, busOk, true), steps);
  }

  /** Failed uploads heal: after any run whose unsets systemd accepted, one accepted set restores the mirror. */
  lemma MirrorHeals(e: Env, steps: seq<EnvStep>, key: string, value: string, busOk: bool)
    requires e.systemdEnabled && NoExtras(e) && UnsetsSucceed(steps)
    ensures Mirror(EnvApply(EnvExec(e, steps), SetVar(key, value, busOk, true)))
  {
    NoExtrasRun(e, steps);
    var t := EnvExec(e, steps);
    UploadMirrorsIff(t.(process := t.process[key := value]), busOk);
  }

  /** The six login keys and the BASH_FUNC keys are never uploaded: whatever value of such a key systemd or
      the activation environment has at the end of a run, it had before. */
  lemma {:induction false} NeverUploaded(e: Env, steps: seq<EnvStep>, key: string)
    requires !Allowed(key)
    ensures var t := EnvExec(e, steps);
      && (key in t.systemd ==> key in e.systemd && t.systemd[key] == e.systemd[key])
      && (key in t.activation <==> key in e.activation)
      && (key in t.activation ==> t.activation[key] == e.activation[key])
    decreases |steps|
  {
    if steps == [] {
    } else {
      NeverUploaded(EnvApply(e, steps[0]), steps[1..], key);
    }
  }

  /** The activation environment is no mirror: what was unset stays in it for the rest of every run. */
  lemma {:induction false} ActivationGrows(e: Env, steps: seq<EnvStep>)
    ensures e.activation.Keys <= EnvExec(e, steps).activation.Keys
    decreases |steps|
  {
    if steps == [] {
    } else {
      ActivationGrows(EnvApply(e, steps[0]), steps[1..]);
    }
  }

  /** An unset keeps the activation environment in step if and only if the key was not in it. */
  lemma ActivationUnsetIff(e: Env, key: string, systemdOk: bool)
    requires AllowedOf(e.activation) == AllowedOf(e.process)
    ensures var t := Unset(e, key, systemdOk);
      AllowedOf(t.activation) == AllowedOf(t.process) <==> !(Allowed(key) && key in e.activation)
  {
    var t := Unset(e, key, systemdOk);
    assert forall k :: k in AllowedOf(e.activation) <==> k in e.activation && Allowed(k);
    assert forall k :: k in AllowedOf(e.process) <==> k in e.process && Allowed(k);
    if Allowed(key) && key in e.activation {
      assert key in AllowedOf(t.activation) && key !in AllowedOf(t.process);
    } else {
      assert AllowedOf(t.process) == AllowedOf(e.process);
    }
  }
}
