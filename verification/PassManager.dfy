/**
 `PassManager`: runs a list of passes over a program; a pass may throw a trigger, and the run then
 goes back to an earlier pass that accepts it.
 */
module PassManagers {
  import opened Options

  /** A pass, or a manager used as a pass.  Only passes that are `Backtrack`s can accept a trigger;
      `never` is what `never_backtracks()` answers. */
  datatype Pass = Leaf(id: nat, isBacktrack: bool, never: bool) | Group(passes: seq<Pass>, stopOnError: bool)

  /** What applying a pass comes to.  `exit`: on its way the pass asked its manager for an early exit. */
  datatype Outcome<P, T> = Returns(program: Option<P>, exit: bool) | Throws(trigger: T, exit: bool)

  /** The passes, as far as their manager can tell.  Their memory is part of the world `W`.
      `errors` is the global error count; `acceptances` bounds how many triggers the passes together
      will still accept. */
  datatype Env<!W, !P, !T> = Env(
    apply: (W, nat, P) -> (W, Outcome<P, T>), ask: (W, nat, T) -> (W, bool), errors: W -> nat, acceptances: W -> nat)

  /** Each pass accepts finitely often. */
  ghost predicate Bounded<W(!new), P(!new), T(!new)>(env: Env<W, P, T>)
  {
    && (forall w, i, p :: env.acceptances(env.apply(w, i, p).0) <= env.acceptances(w))
    && (forall w, i, t :: env.acceptances(env.ask(w, i, t).0) <= env.acceptances(w))
    && (forall w, i, t :: env.ask(w, i, t).1 ==> env.acceptances(env.ask(w, i, t).0) < env.acceptances(w))
  }

  predicate IsBacktrack(v: Pass)
  {
    v.Group? || v.isBacktrack
  }

  /** `never_backtracks()` */
  predicate Never(v: Pass)
  {
    match v
    case Leaf(_, _, never) => never
    case Group(ps, _) => forall i :: 0 <= i < |ps| && IsBacktrack(ps[i]) ==> Never(ps[i])
  }

  /** A pass for which the manager keeps a snapshot. */
  predicate Candidate(v: Pass)
  {
    IsBacktrack(v) && !Never(v)
  }

  /** `backtrack(trig)` */
  function Ask<W(!new), P(!new), T(!new)>(env: Env<W, P, T>, v: Pass, w: W, t: T): (r: (W, bool))
    requires Bounded(env)
    ensures env.acceptances(r.0) <= env.acceptances(w) && (r.1 ==> env.acceptances(r.0) < env.acceptances(w))
    decreases v, 0
  {
    match v
    case Leaf(id, _, _) => env.ask(w, id, t)
    case Group(ps, _) => AskEach(env, v, 0, w, t)
  }

  /** `PassManager::backtrack`: the passes of a group are asked in order until one accepts. */
  function AskEach<W(!new), P(!new), T(!new)>(env: Env<W, P, T>, v: Pass, i: nat, w: W, t: T): (r: (W, bool))
    requires Bounded(env) && v.Group? && i <= |v.passes|
    ensures env.acceptances(r.0) <= env.acceptances(w) && (r.1 ==> env.acceptances(r.0) < env.acceptances(w))
    decreases v, 0, |v.passes| - i
  {
    if i == |v.passes| then (w, false)
    else if !IsBacktrack(v.passes[i]) then AskEach(env, v, i + 1, w, t)
    else
      var (w1, ok) := Ask(env, v.passes[i], w, t);
      if ok then (w1, true) else AskEach(env, v, i + 1, w1, t)
  }

  // ---------- the run ----------

  datatype Snapshot<P> = Snapshot(pos: nat, program: P)

  /** `Start`: the pass at `pos` is applied to `program`; `Asked`: it is asked about a trigger. */
  datatype Event<P> = Start(pos: nat, program: P) | Asked(pos: nat, accepted: bool)

  datatype Result<W, P, T> = Result(w: W, outcome: Outcome<P, T>, log: seq<Event<P>>)

  /** Where the inner loop of the trigger handler ends. */
  datatype Unwound<W, P> = Unwound(it: nat, program: P, backup: seq<Snapshot<P>>, w: W, log: seq<Event<P>>)

  predicate ValidBackup<P(!new)>(v: Pass, backup: seq<Snapshot<P>>)
  {
    v.Group? && forall i :: 0 <= i < |backup| ==> backup[i].pos < |v.passes|
  }

  /** The loop over the backup stack: the entries of the pass itself are dropped, the pass of the top
      entry is asked, and so on until one accepts or the stack is empty. */
  function Unwind<W(!new), P(!new), T(!new)>(env: Env<W, P, T>, v: Pass, u: Unwound<W, P>, t: T): (r: Unwound<W, P>)
    requires Bounded(env) && ValidBackup(v, u.backup)
    ensures env.acceptances(r.w) <= env.acceptances(u.w) && ValidBackup(v, r.backup)
    ensures r.backup != [] ==> env.acceptances(r.w) < env.acceptances(u.w) && r.it < |v.passes|
    decreases |u.backup|, if u.backup != [] && u.backup[|u.backup| - 1].pos != u.it then 1 else 0
  {
    if u.backup == [] then u
    else
      var top := u.backup[|u.backup| - 1];
      if top.pos == u.it then Unwind(env, v, u.(backup := u.backup[..|u.backup| - 1]), t)
      else
        var (w1, ok) := Ask(env, v.passes[top.pos], u.w, t);
        var u1 := Unwound(top.pos, top.program, u.backup, w1, u.log + [Asked(top.pos, ok)]);
        if ok then u1 else Unwind(env, v, u1, t)
  }

  function Pushed<P>(v: Pass, it: nat, program: P, backup: seq<Snapshot<P>>): seq<Snapshot<P>>
    requires v.Group? && it < |v.passes|
  {
    if Candidate(v.passes[it]) then backup + [Snapshot(it, program)] else backup
  }

  /** `program->apply(pass)` */
  function Apply<W(!new), P(!new), T(!new)>(env: Env<W, P, T>, v: Pass, w: W, program: P): (r: (W, Outcome<P, T>))
    requires Bounded(env)
    ensures env.acceptances(r.0) <= env.acceptances(w)
    decreases env.acceptances(w), v, if v.Group? then |v.passes| + 2 else 0
  {
    match v
    case Leaf(id, _, _) => env.apply(w, id, program)
    case Group(_, _) =>
      var r := Run(env, v, 0, program, [], false, w, []);
      (r.w, r.outcome)
  }

  /** `PassManager::apply_visitor`, from the pass at `it` on.  `exiting` is the flag that a pass sets to
      ask for an early exit: it is looked at when a pass has returned, and one that throws leaves it set. */
  function Run<W(!new), P(!new), T(!new)>(
    env: Env<W, P, T>, v: Pass, it: nat, program: P, backup: seq<Snapshot<P>>, exiting: bool, w: W, log: seq<Event<P>>)
    : (r: Result<W, P, T>)
    requires Bounded(env) && ValidBackup(v, backup) && it <= |v.passes|
    ensures env.acceptances(r.w) <= env.acceptances(w) && !r.outcome.exit
    decreases env.acceptances(w), v, |v.passes| + 1 - it
  {
    if it == |v.passes| then Result(w, Returns(Some(program), false), log)
    else
      var backup1 := Pushed(v, it, program, backup);
      var log1 := log + [Start(it, program)];
      var (w1, out) := Apply(env, v.passes[it], w, program);
      var exiting1 := exiting || out.exit;
      match out
      case Throws(t, _) =>
        var u := Unwind(env, v, Unwound(it, program, backup1, w1, log1), t);
        if u.backup == [] then Result(u.w, Throws(t, false), u.log)
        else Run(env, v, u.it, u.program, u.backup, exiting1, u.w, u.log)
      case Returns(p, _) =>
        if (v.stopOnError && env.errors(w1) > 0) || p.None? then Result(w1, Returns(None, false), log1)
        else if exiting1 then Result(w1, Returns(p, false), log1)
        else Run(env, v, it + 1, p.value, backup1, false, w1, log1)
  }
}
