/** `PassManager::apply_visitor` as it runs: two nested loops over a position, a program and a stack. */
module PassManagerLoop {
  import opened Options
  import opened PassManagers
  import opened PassManagerProof
  import opened PlainPasses

  /** A run from a pass that throws. */
  lemma ThrowStep<W(!new), P(!new), T(!new)>(env: Env<W, P, T>, v: Pass, it: nat, program: P, backup: seq<Snapshot<P>>,
                                             exiting: bool, w: W, log: seq<Event<P>>)
    requires Bounded(env) && ValidBackup(v, backup) && it < |v.passes| && Apply(env, v.passes[it], w, program).1.Throws?
    ensures (var (w1, out) := Apply(env, v.passes[it], w, program);
      var u0 := Unwound(it, program, Pushed(v, it, program, backup), w1, log + [Start(it, program)]);
      var u := Unwind(env, v, u0, out.trigger);
      Run(env, v, it, program, backup, exiting, w, log) ==
      if u.backup == [] then Result(u.w, Throws(out.trigger, false), u.log)
      else Run(env, v, u.it, u.program, u.backup, exiting || out.exit, u.w, u.log))
  {}

  /** A run from a pass that returns. */
  lemma ReturnStep<W(!new), P(!new), T(!new)>(env: Env<W, P, T>, v: Pass, it: nat, program: P, backup: seq<Snapshot<P>>,
                                              exiting: bool, w: W, log: seq<Event<P>>)
    requires Bounded(env) && ValidBackup(v, backup) && it < |v.passes|
      && Apply(env, v.passes[it], w, program).1.Returns?
    ensures (var (w1, out) := Apply(env, v.passes[it], w, program);
      var log1 := log + [Start(it, program)];
      Run(env, v, it, program, backup, exiting, w, log) ==
      if (v.stopOnError && env.errors(w1) > 0) || out.program.None? then Result(w1, Returns(None, false), log1)
      else if exiting || out.exit then Result(w1, Returns(out.program, false), log1)
      else Run(env, v, it + 1, out.program.value, Pushed(v, it, program, backup), false, w1, log1))
  {}

  class PassManager<W(!new), P(!new), T(!new)> {
    const env: Env<W, P, T>
    const group: Pass
    var world: W
    var earlyExit: bool
    var running: bool
    var seqNo: nat
    ghost var log: seq<Event<P>>

    constructor (env: Env<W, P, T>, group: Pass, world: W)
      ensures this.env == env && this.group == group && this.world == world && !running && seqNo == 0
    {
      this.env, this.group, this.world, earlyExit, running, seqNo, log := env, group, world, false, false, 0, [];
    }

    /** Applied to `program`, the manager returns or throws what the plain run does, and leaves the
        world as it does. */
    method ApplyVisitor(program: P) returns (out: Outcome<P, T>)
      requires Bounded(env) && group.Group? && running
      modifies this
      ensures Result(world, out, log) == PlainRun(env, group, 0, program, map[], false, old(world), [])
      ensures running <==> out.Throws?
    {
      ghost var w0 := world;
      log, earlyExit := [], false;
      out := RunPasses(program);
      ManagerIsPlain(env, group, w0, program);
    }

    /** The loop over the passes. */
    method RunPasses(program: P) returns (out: Outcome<P, T>)
      requires Bounded(env) && group.Group? && running && log == [] && !earlyExit
      modifies this
      ensures Result(world, out, log) == Run(env, group, 0, program, [], false, old(world), [])
      ensures running <==> out.Throws?
    {
      ghost var whole := Run(env, group, 0, program, [], false, world, []);
      var it: nat := 0;
      var current, backup: seq<Snapshot<P>> := program, [];
      while it < |group.passes|
        invariant it <= |group.passes| && ValidBackup(group, backup) && running
        invariant whole == Run(env, group, it, current, backup, earlyExit, world, log)
        decreases env.acceptances(world), |group.passes| - it
      {
        if Apply(env, group.passes[it], world, current).1.Throws? {
          ThrowStep(env, group, it, current, backup, earlyExit, world, log);
        } else {
          ReturnStep(env, group, it, current, backup, earlyExit, world, log);
        }
        backup := Save(it, current, backup);
        var result := ApplyPass(it, current);
        match result
        case Throws(trigger, _) =>
          it, current, backup := Backtrack(it, current, backup, trigger);
          if backup == [] {
            return Throws(trigger, false);
          }
        case Returns(p, _) =>
          if group.stopOnError && env.errors(world) > 0 {
            p := None;
          }
          if p.None? {
            running := false;
            return Returns(None, false);
          }
          current := p.value;
          if earlyExit {
            running := false;
            return Returns(p, false);
          }
          seqNo := seqNo + 1;
          it := it + 1;
      }
      running := false;
      return Returns(Some(current), false);
    }

    /** The pass may ask for an early exit, whether it then returns or throws. */
    method ApplyPass(it: nat, current: P) returns (r: Outcome<P, T>)
      requires Bounded(env) && group.Group? && it < |group.passes|
      modifies this`world, this`log, this`earlyExit
      ensures (world, r) == Apply(env, group.passes[it], old(world), current)
      ensures earlyExit == (old(earlyExit) || r.exit) && log == old(log) + [Start(it, current)]
      ensures env.acceptances(world) <= env.acceptances(old(world))
    {
      log := log + [Start(it, current)];
      var (w1, result) := Apply(env, group.passes[it], world, current);
      r, world := result, w1;
      earlyExit := earlyExit || r.exit;
    }

    /** A candidate's program is pushed before it starts. */
    method Save(it: nat, current: P, backup: seq<Snapshot<P>>) returns (r: seq<Snapshot<P>>)
      requires Bounded(env) && group.Group? && it < |group.passes| && ValidBackup(group, backup)
      ensures r == Pushed(group, it, current, backup) && ValidBackup(group, r)
    {
      var v := group.passes[it];
      r := backup;
      if IsBacktrack(v) && !Never(v) {
        r := r + [Snapshot(it, current)];
      }
    }

    /** The handler of a trigger: where to go on, or an empty stack. */
    method Backtrack(it0: nat, current0: P, backup0: seq<Snapshot<P>>, trigger: T)
      returns (it: nat, current: P, backup: seq<Snapshot<P>>)
      requires Bounded(env) && ValidBackup(group, backup0)
      modifies this`world, this`log
      ensures Unwound(it, current, backup, world, log)
        == Unwind(env, group, Unwound(it0, current0, backup0, old(world), old(log)), trigger)
    {
      it, current, backup := it0, current0, backup0;
      ghost var whole := Unwind(env, group, Unwound(it, current, backup, world, log), trigger);
      while backup != []
        invariant ValidBackup(group, backup)
        invariant whole == Unwind(env, group, Unwound(it, current, backup, world, log), trigger)
        decreases |backup|, if backup != [] && backup[|backup| - 1].pos != it then 1 else 0
      {
        var top := backup[|backup| - 1];
        if top.pos == it {
          backup := backup[..|backup| - 1];
          continue;
        }
        it, current := top.pos, top.program;
        var (w1, ok) := Ask(env, group.passes[it], world, trigger);
        world := w1;
        log := log + [Asked(it, ok)];
        if ok {
          return;
        }
      }
    }
  }
}
