/**
 * The plugin registry of vcc_py/plugin.py. Each loaded plugin gets a `Plugin`
 * object on which it registers send hooks (text to text, or None to drop),
 * recv hooks (request to request, or None to drop) and commands. `Plugins`
 * keeps the loaded plugins in load order; a message is threaded through every
 * hook, plugin by plugin and then in registration order, and the first hook
 * that answers None drops it without any later hook running.
 *
 * Loading goes through a catalogue from plugin name to what the plugin does
 * when it is loaded, in place of importing a module.
 */
module Plugins {
  import opened Wrappers
  import opened Sock
  import Commands
  import Ban
  import Cqd

  /** A recv hook: the two shipped plugins' filters, or any other function on requests. */
  datatype RecvHook =
    | BanFilter
    | CqdFilter
    | RecvFn(f: Request -> Option<Request>)

  /** A recv hook applied to a request, with the ban plugin's list as it stands. */
  function ApplyRecv(banned: set<string>, h: RecvHook, req: Request): (r: Option<Request>)
    ensures h.BanFilter? ==> r == Ban.Filter(banned, req)
    ensures h.CqdFilter? ==> r == Cqd.Filter(req)
  {
    match h
    case BanFilter => Ban.Filter(banned, req)
    case CqdFilter => Cqd.Filter(req)
    case RecvFn(f) => f(req)
  }

  /** The recv hooks' application function for a given ban list. */
  function RecvApply(banned: set<string>): (RecvHook, Request) -> Option<Request>
  {
    (h, req) => ApplyRecv(banned, h, req)
  }

  function ApplySend(f: string -> Option<string>, msg: string): Option<string>
  {
    f(msg)
  }

  // ---------------------------------------------------------------------------
  // The hook chain
  // ---------------------------------------------------------------------------

  /** The hooks applied in order to a message; once one answers None the rest do not run. */
  function Chain<H, T>(apply: (H, T) -> Option<T>, hooks: seq<H>, m: Option<T>): (r: Option<T>)
    ensures hooks == [] ==> r == m
    ensures m.None? ==> r.None?
    decreases |hooks|
  {
    if hooks == [] || m.None? then m else Chain(apply, hooks[1..], apply(hooks[0], m.value))
  }

  /** How many hooks the chain runs: all of them, unless one answers None first. */
  function Ran<H, T>(apply: (H, T) -> Option<T>, hooks: seq<H>, m: Option<T>): (n: nat)
    ensures n <= |hooks|
    decreases |hooks|
  {
    if hooks == [] || m.None? then 0 else 1 + Ran(apply, hooks[1..], apply(hooks[0], m.value))
  }

  /** Running a + b is running b on what a produced. */
  lemma {:induction false} ChainAppend<H, T>(apply: (H, T) -> Option<T>, a: seq<H>, b: seq<H>, m: Option<T>)
    ensures Chain(apply, a + b, m) == Chain(apply, b, Chain(apply, a, m))
    decreases |a|
  {
    if a == [] {
      assert a + b == b;
    } else if m.None? {
    } else {
      assert (a + b)[1..] == a[1..] + b;
      ChainAppend(apply, a[1..], b, apply(a[0], m.value));
    }
  }

  /**
   * A chain that stops before its last hook has dropped the message; and a
   * dropped message was dropped by the last hook that ran, every earlier one
   * having passed something on.
   */
  lemma {:induction false} ChainShortCircuits<H, T>(apply: (H, T) -> Option<T>, hooks: seq<H>, m: T)
    ensures Ran(apply, hooks, Some(m)) < |hooks| ==> Chain(apply, hooks, Some(m)).None?
    ensures Chain(apply, hooks, Some(m)).None? ==>
      var n := Ran(apply, hooks, Some(m));
      && 0 < n
      && Chain(apply, hooks[..n - 1], Some(m)).Some?
      && Chain(apply, hooks[..n], Some(m)).None?
    decreases |hooks|
  {
    if hooks != [] {
      var next := apply(hooks[0], m);
      if next.None? {
        assert hooks[..1][1..] == [];
      } else {
        var rest := hooks[1..];
        ChainShortCircuits(apply, rest, next.value);
        var n := Ran(apply, hooks, Some(m));
        assert hooks[..n][1..] == rest[..n - 1];
        if 1 < n {
          assert hooks[..n - 1][1..] == rest[..n - 2];
        }
      }
    }
  }

  /** Once a prefix of the hooks has dropped the message, no hook after it runs. */
  lemma {:induction false} DroppedStopsLater<H, T>(apply: (H, T) -> Option<T>, a: seq<H>, b: seq<H>, m: Option<T>)
    requires Chain(apply, a, m).None?
    ensures Chain(apply, a + b, m).None?
    ensures Ran(apply, a + b, m) == Ran(apply, a, m)
    decreases |a|
  {
    if a == [] || m.None? {
      if a == [] {
        assert a + b == b;
      }
    } else {
      assert (a + b)[1..] == a[1..] + b;
      DroppedStopsLater(apply, a[1..], b, apply(a[0], m.value));
    }
  }

  /** Hooks that pass every message through unchanged leave the chain's input unchanged. */
  lemma {:induction false} PassThroughChain<H, T>(apply: (H, T) -> Option<T>, hooks: seq<H>, m: T)
    requires forall k, x :: 0 <= k < |hooks| ==> apply(hooks[k], x) == Some(x)
    ensures Chain(apply, hooks, Some(m)) == Some(m)
    decreases |hooks|
  {
    if hooks != [] {
      assert apply(hooks[0], m) == Some(m);
      PassThroughChain(apply, hooks[1..], m);
    }
  }

  // ---------------------------------------------------------------------------
  // One plugin's registrations
  // ---------------------------------------------------------------------------

  /** One registration a plugin performs on its `Plugin` object when it is loaded. */
  datatype Registration =
    | SendHookReg(send: string -> Option<string>)
    | RecvHookReg(recv: RecvHook)
    | CmdReg(name: string, cmd: Commands.Handler)

  /** The send hooks a sequence of registrations adds, in order. */
  function SendRegs(regs: seq<Registration>): seq<string -> Option<string>>
  {
    if regs == [] then []
    else SendRegs(regs[..|regs| - 1]) + (if regs[|regs| - 1].SendHookReg? then [regs[|regs| - 1].send] else [])
  }

  /** The recv hooks a sequence of registrations adds, in order. */
  function RecvRegs(regs: seq<Registration>): seq<RecvHook>
  {
    if regs == [] then []
    else RecvRegs(regs[..|regs| - 1]) + (if regs[|regs| - 1].RecvHookReg? then [regs[|regs| - 1].recv] else [])
  }

  /** The commands a sequence of registrations binds over `cmds`; a later registration of a name wins. */
  function CmdRegs(cmds: map<string, Commands.Handler>, regs: seq<Registration>): map<string, Commands.Handler>
  {
    if regs == [] then cmds
    else if regs[|regs| - 1].CmdReg? then CmdRegs(cmds, regs[..|regs| - 1])[regs[|regs| - 1].name := regs[|regs| - 1].cmd]
    else CmdRegs(cmds, regs[..|regs| - 1])
  }

  /** A name bound by the registrations maps to the last command registered under it; other names keep their binding. */
  lemma {:induction false} CmdRegsLastWins(cmds: map<string, Commands.Handler>, regs: seq<Registration>, k: nat)
    requires k < |regs| && regs[k].CmdReg?
    requires forall j :: k < j < |regs| ==> !(regs[j].CmdReg? && regs[j].name == regs[k].name)
    ensures regs[k].name in CmdRegs(cmds, regs) && CmdRegs(cmds, regs)[regs[k].name] == regs[k].cmd
    decreases |regs|
  {
    if k < |regs| - 1 {
      var init := regs[..|regs| - 1];
      assert init[k] == regs[k];
      CmdRegsLastWins(cmds, init, k);
    }
  }

  lemma {:induction false} CmdRegsUntouched(cmds: map<string, Commands.Handler>, regs: seq<Registration>, name: string)
    requires forall j :: 0 <= j < |regs| ==> !(regs[j].CmdReg? && regs[j].name == name)
    ensures name in CmdRegs(cmds, regs) <==> name in cmds
    ensures name in cmds ==> CmdRegs(cmds, regs)[name] == cmds[name]
    decreases |regs|
  {
    if regs != [] {
      var init := regs[..|regs| - 1];
      assert forall j :: 0 <= j < |init| ==> init[j] == regs[j];
      CmdRegsUntouched(cmds, init, name);
    }
  }

  /** The object a plugin registers on (`Plugin`). `get_send_hooks` and `get_recv_hooks` are reads of the two hook fields. */
  class Plugin {
    var sendHooks: seq<string -> Option<string>>
    var recvHooks: seq<RecvHook>
    var cmds: map<string, Commands.Handler>

    constructor ()
      ensures sendHooks == [] && recvHooks == [] && cmds == map[]
    {
      sendHooks := [];
      recvHooks := [];
      cmds := map[];
    }

    /** register_send_hook: append the hook and hand it back unchanged. */
    method RegisterSendHook(f: string -> Option<string>) returns (g: string -> Option<string>)
      modifies this`sendHooks
      ensures g == f && sendHooks == old(sendHooks) + [f]
    {
      sendHooks := sendHooks + [f];
      g := f;
    }

    /** register_recv_hook: append the hook and hand it back unchanged. */
    method RegisterRecvHook(h: RecvHook) returns (g: RecvHook)
      modifies this`recvHooks
      ensures g == h && recvHooks == old(recvHooks) + [h]
    {
      recvHooks := recvHooks + [h];
      g := h;
    }

    /** register_cmd(name) applied to a command: bind the name, replacing any earlier binding, and hand the command back. */
    method RegisterCmd(name: string, cmd: Commands.Handler) returns (g: Commands.Handler)
      modifies this`cmds
      ensures g == cmd && cmds == old(cmds)[name := cmd]
    {
      cmds := cmds[name := cmd];
      g := cmd;
    }

    /** What loading a plugin does to its fresh `Plugin`: the registrations, in order. */
    method Perform(regs: seq<Registration>)
      modifies this
      ensures sendHooks == old(sendHooks) + SendRegs(regs)
      ensures recvHooks == old(recvHooks) + RecvRegs(regs)
      ensures cmds == CmdRegs(old(cmds), regs)
    {
      var i := 0;
      while i < |regs|
        invariant i <= |regs|
        invariant sendHooks == old(sendHooks) + SendRegs(regs[..i])
        invariant recvHooks == old(recvHooks) + RecvRegs(regs[..i])
        invariant cmds == CmdRegs(old(cmds), regs[..i])
      {
        assert regs[..i + 1][..i] == regs[..i];
        match regs[i] {
          case SendHookReg(f) => var _ := RegisterSendHook(f);
          case RecvHookReg(h) => var _ := RegisterRecvHook(h);
          case CmdReg(name, cmd) => var _ := RegisterCmd(name, cmd);
        }
        i := i + 1;
      }
      assert regs[..i] == regs;
    }
  }

  // ---------------------------------------------------------------------------
  // The loaded plugins
  // ---------------------------------------------------------------------------

  /** What loading a plugin does: its registrations, and whether it hands back a generator (and how often that one yields). */
  datatype InitFn = InitFn(regs: seq<Registration>, generator: Option<nat>)

  /** A generator handed back by a plugin's init: `advanced` counts the next() calls so far, of which the first `values` yield a value. */
  datatype Gen = Gen(values: nat, advanced: nat)

  /** next() on a generator: the new generator and whether StopIteration was raised. */
  function Advance(g: Gen): (r: (Gen, bool))
    ensures r.1 <==> g.values <= g.advanced
    ensures r.0.values == g.values
    ensures r.0.advanced == if g.advanced <= g.values then g.advanced + 1 else g.advanced
  {
    if g.advanced < g.values then (Gen(g.values, g.advanced + 1), false)
    else if g.advanced == g.values then (Gen(g.values, g.advanced + 1), true)
    else (g, true)
  }

  /** The two shipped plugins that are part of this model, as they register themselves. */
  const BAN_INIT: InitFn := InitFn([RecvHookReg(BanFilter), CmdReg("-ban", Commands.BanCmd), CmdReg("-unban", Commands.UnbanCmd)], None)
  const CQD_INIT: InitFn := InitFn([CmdReg("-cqd", Commands.CqdCmd), RecvHookReg(CqdFilter)], None)
  const CATALOGUE: map<string, InitFn> := map["ban" := BAN_INIT, "cqd" := CQD_INIT]

  /**
   * How loading ends: all loaded, the import of one name failed (add_plugin's
   * message), next() on a fresh generator raised StopIteration, or `__init__`
   * failed to import some configured name and then raised AttributeError on the
   * unset `modules`.
   */
  datatype LoadOutcome = Loaded | NotFound | StopIterationRaised | AttributeErrorRaised

  /** The catalogue entries of the given names, in order. */
  function InitsOf(catalogue: map<string, InitFn>, names: seq<string>): (r: seq<InitFn>)
    requires forall k :: 0 <= k < |names| ==> names[k] in catalogue
    ensures |r| == |names|
  {
    if names == [] then [] else InitsOf(catalogue, names[..|names| - 1]) + [catalogue[names[|names| - 1]]]
  }

  /** The k-th entry of InitsOf is the catalogue entry of the k-th name. */
  lemma {:induction false} InitsOfAt(catalogue: map<string, InitFn>, names: seq<string>, k: nat)
    requires k < |names| && forall j :: 0 <= j < |names| ==> names[j] in catalogue
    ensures InitsOf(catalogue, names)[k] == catalogue[names[k]]
    decreases |names|
  {
    if k < |names| - 1 {
      assert names[..|names| - 1][k] == names[k];
      InitsOfAt(catalogue, names[..|names| - 1], k);
    }
  }

  /** The generators the plugins' inits hand back, in order, each advanced once by add_plugin. */
  function FirstAdvances(inits: seq<InitFn>): (r: seq<Gen>)
    ensures |r| <= |inits|
    ensures forall k :: 0 <= k < |r| ==> r[k].advanced == 1
  {
    if inits == [] then []
    else
      FirstAdvances(inits[..|inits| - 1])
      + (if inits[|inits| - 1].generator.Some? then [Gen(inits[|inits| - 1].generator.value, 1)] else [])
  }

  /** Recording one more name appends it, its init and the generator that hands back (if any) to what was recorded. */
  lemma RecordStep(
    catalogue: map<string, InitFn>, names: seq<string>, i: nat, m0: seq<string>, f0: seq<InitFn>, g0: seq<Gen>)
    requires i < |names| && forall k :: 0 <= k < |names| ==> names[k] in catalogue
    ensures m0 + names[..i + 1] == (m0 + names[..i]) + [names[i]]
    ensures f0 + InitsOf(catalogue, names[..i + 1]) == (f0 + InitsOf(catalogue, names[..i])) + [catalogue[names[i]]]
    ensures var init := catalogue[names[i]];
      g0 + FirstAdvances(InitsOf(catalogue, names[..i + 1]))
      == (g0 + FirstAdvances(InitsOf(catalogue, names[..i])))
         + (if init.generator.Some? then [Gen(init.generator.value, 1)] else [])
  {
    assert names[..i + 1] == names[..i] + [names[i]];
    assert names[..i + 1][..i] == names[..i];
    var inits := InitsOf(catalogue, names[..i + 1]);
    assert inits == InitsOf(catalogue, names[..i]) + [catalogue[names[i]]];
    assert inits[..|inits| - 1] == InitsOf(catalogue, names[..i]);
  }

  /** The position of the first init handing back a generator that yields nothing, or |inits| when none does. */
  function FirstEmptyGenerator(inits: seq<InitFn>): (n: nat)
    ensures n <= |inits|
    ensures forall k :: 0 <= k < n ==> inits[k].generator != Some(0)
    ensures n < |inits| ==> inits[n].generator == Some(0)
  {
    if inits == [] then 0
    else if inits[0].generator == Some(0) then 0
    else 1 + FirstEmptyGenerator(inits[1..])
  }

  /** A `Plugin` holding exactly what an init registers on a fresh one. */
  ghost predicate LoadedAs(p: Plugin, init: InitFn)
    reads p
  {
    && p.sendHooks == SendRegs(init.regs)
    && p.recvHooks == RecvRegs(init.regs)
    && p.cmds == CmdRegs(map[], init.regs)
  }

  /** The send hooks of the plugins in order, each plugin's hooks in registration order. */
  function SendHooksOf(ps: seq<Plugin>): seq<string -> Option<string>>
    reads ps
  {
    if ps == [] then [] else SendHooksOf(ps[..|ps| - 1]) + ps[|ps| - 1].sendHooks
  }

  /** The recv hooks of the plugins in order, each plugin's hooks in registration order. */
  function RecvHooksOf(ps: seq<Plugin>): seq<RecvHook>
    reads ps
  {
    if ps == [] then [] else RecvHooksOf(ps[..|ps| - 1]) + ps[|ps| - 1].recvHooks
  }

  /** The plugins' command tables merged in order: on a clash the later plugin's command wins. */
  function CommandsOf(ps: seq<Plugin>): map<string, Commands.Handler>
    reads ps
  {
    if ps == [] then map[] else CommandsOf(ps[..|ps| - 1]) + ps[|ps| - 1].cmds
  }

  /** A name is merged exactly when some plugin has it, and it maps to the last such plugin's command. */
  lemma {:induction false} CommandsLaterWins(ps: seq<Plugin>, name: string, k: nat)
    requires k < |ps| && name in ps[k].cmds
    requires forall j :: k < j < |ps| ==> name !in ps[j].cmds
    ensures name in CommandsOf(ps) && CommandsOf(ps)[name] == ps[k].cmds[name]
    decreases |ps|
  {
    if k < |ps| - 1 {
      var init := ps[..|ps| - 1];
      assert init[k] == ps[k];
      CommandsLaterWins(init, name, k);
    }
  }

  lemma {:induction false} CommandsOfKeys(ps: seq<Plugin>, name: string)
    ensures name in CommandsOf(ps) <==> exists j :: 0 <= j < |ps| && name in ps[j].cmds
    decreases |ps|
  {
    if ps != [] {
      var init := ps[..|ps| - 1];
      CommandsOfKeys(init, name);
      assert forall j :: 0 <= j < |init| ==> init[j] == ps[j];
    }
  }

  /** One plugin's hooks run in order on the message, stopping as soon as it is None. */
  method RunHooks<H, T>(apply: (H, T) -> Option<T>, hooks: seq<H>, m: Option<T>) returns (r: Option<T>)
    ensures r == Chain(apply, hooks, m)
  {
    r := m;
    var j := 0;
    while j < |hooks|
      invariant j <= |hooks|
      invariant Chain(apply, hooks[j..], r) == Chain(apply, hooks, m)
    {
      if r.None? {
        break;
      }
      assert hooks[j..][1..] == hooks[j + 1..];
      r := apply(hooks[j], r.value);
      j := j + 1;
    }
  }

  /** The loaded plugins (`Plugins`). */
  class Plugins {
    const catalogue: map<string, InitFn>
    var modules: seq<string>
    var initFuncs: seq<InitFn>
    var initResults: seq<Gen>
    var plugs: seq<Plugin>
    /** What the class prints itself. */
    var output: seq<string>

    /** Nothing loaded yet; LoadAll performs the loading loop of `__init__`. */
    constructor (catalogue: map<string, InitFn>)
      ensures this.catalogue == catalogue
      ensures modules == [] && initFuncs == [] && initResults == [] && plugs == [] && output == []
    {
      this.catalogue := catalogue;
      modules := [];
      initFuncs := [];
      initResults := [];
      plugs := [];
      output := [];
    }

    /**
     * add_plugin: an unknown name prints "Cannot find the plugin" and changes
     * nothing else. Otherwise the plugin is recorded, a fresh `Plugin` receives
     * its registrations, a generator it hands back is advanced once (and
     * StopIteration from that first advance escapes before the plugin is kept),
     * and the `Plugin` is appended to `plugs`.
     */
    method AddPlugin(name: string) returns (r: LoadOutcome)
      modifies this`modules, this`initFuncs, this`initResults, this`plugs, this`output
      ensures name !in catalogue ==>
        && r == NotFound && output == old(output) + ["Cannot find the plugin"]
        && modules == old(modules) && initFuncs == old(initFuncs)
        && initResults == old(initResults) && plugs == old(plugs)
      ensures name in catalogue ==>
        var init := catalogue[name];
        && output == old(output)
        && modules == old(modules) + [name] && initFuncs == old(initFuncs) + [init]
        && initResults == old(initResults) + (if init.generator.Some? then [Gen(init.generator.value, 1)] else [])
        && (r == StopIterationRaised <==> init.generator == Some(0))
        && (r != StopIterationRaised ==> r == Loaded)
        && (r == StopIterationRaised ==> plugs == old(plugs))
        && (r == Loaded ==>
              && |plugs| == |old(plugs)| + 1 && plugs[..|old(plugs)|] == old(plugs)
              && fresh(plugs[|old(plugs)|])
              && plugs[|old(plugs)|].sendHooks == SendRegs(init.regs)
              && plugs[|old(plugs)|].recvHooks == RecvRegs(init.regs)
              && plugs[|old(plugs)|].cmds == CmdRegs(map[], init.regs))
    {
      if name !in catalogue {
        output := output + ["Cannot find the plugin"];
        return NotFound;
      }
      modules := modules + [name];
      var init := catalogue[name];
      initFuncs := initFuncs + [init];
      var plug := new Plugin();
      plug.Perform(init.regs);
      if init.generator.Some? {
        var advanced := Advance(Gen(init.generator.value, 0));
        initResults := initResults + [advanced.0];
        if advanced.1 {
          return StopIterationRaised;
        }
      }
      plugs := plugs + [plug];
      r := Loaded;
    }

    /** Every name is in the catalogue, so every import succeeds. */
    predicate Known(names: seq<string>)
    {
      forall k :: 0 <= k < |names| ==> names[k] in catalogue
    }

    /** Over the state (m0, f0, g0) before loading, the first n names are recorded as imported, with their inits and the generators those handed back. */
    ghost predicate RecordedOver(m0: seq<string>, f0: seq<InitFn>, g0: seq<Gen>, names: seq<string>, n: nat)
      requires n <= |names| && Known(names)
      reads this
    {
      && modules == m0 + names[..n]
      && initFuncs == f0 + InitsOf(catalogue, names[..n])
      && initResults == g0 + FirstAdvances(InitsOf(catalogue, names[..n]))
    }

    /** Behind the plugins p0, the plugins of the first n names were appended, each registered on as its init says. */
    ghost predicate KeptOver(p0: seq<Plugin>, names: seq<string>, n: nat)
      requires n <= |names| && Known(names)
      reads this, plugs
    {
      && |plugs| == |p0| + n
      && (forall j :: 0 <= j < |p0| ==> plugs[j] == p0[j])
      && forall j :: |p0| <= j < |plugs| ==> LoadedAs(plugs[j], catalogue[names[j - |p0|]])
    }

    /** RecordedOver, from the state before the call. */
    twostate predicate Recorded(names: seq<string>, n: nat)
      requires n <= |names| && Known(names)
      reads this
    {
      RecordedOver(old(modules), old(initFuncs), old(initResults), names, n)
    }

    /** KeptOver the plugins before the call. */
    twostate predicate Kept(names: seq<string>, n: nat)
      requires n <= |names| && Known(names)
      reads this, plugs
    {
      KeptOver(old(plugs), names, n)
    }

    /** One turn of the loading loop: add_plugin on names[i], behind the plugins of names[..i]. */
    method LoadNext(
      names: seq<string>, i: nat, ghost m0: seq<string>, ghost f0: seq<InitFn>, ghost g0: seq<Gen>, ghost p0: seq<Plugin>)
      returns (r: LoadOutcome)
      requires i < |names| && Known(names)
      requires RecordedOver(m0, f0, g0, names, i) && KeptOver(p0, names, i)
      modifies this`modules, this`initFuncs, this`initResults, this`plugs, this`output
      ensures r == StopIterationRaised <==> catalogue[names[i]].generator == Some(0)
      ensures r != StopIterationRaised ==> r == Loaded
      ensures RecordedOver(m0, f0, g0, names, i + 1) && output == old(output)
      ensures r == Loaded ==>
        && KeptOver(p0, names, i + 1) && |plugs| == |old(plugs)| + 1 && fresh(plugs[|old(plugs)|])
        && forall j :: 0 <= j < |old(plugs)| ==> plugs[j] == old(plugs)[j]
      ensures r == StopIterationRaised ==> plugs == old(plugs) && KeptOver(p0, names, i)
    {
      RecordStep(catalogue, names, i, m0, f0, g0);
      r := AddPlugin(names[i]);
      if r == Loaded {
        assert forall j :: 0 <= j < |old(plugs)| ==> plugs[j] == old(plugs)[j];
        assert forall j :: |p0| <= j < |old(plugs)| ==> LoadedAs(plugs[j], catalogue[names[j - |p0|]]);
      }
    }

    /** The loading loop over names that are all in the catalogue: add_plugin on each in turn until StopIteration escapes. */
    method LoadKnown(names: seq<string>) returns (r: LoadOutcome)
      requires Known(names)
      modifies this`modules, this`initFuncs, this`initResults, this`plugs, this`output
      ensures r == Loaded || r == StopIterationRaised
      ensures r == StopIterationRaised <==> FirstEmptyGenerator(InitsOf(catalogue, names)) < |names|
      ensures r == Loaded ==> Recorded(names, |names|) && Kept(names, |names|)
      ensures r == StopIterationRaised ==>
        var n := FirstEmptyGenerator(InitsOf(catalogue, names));
        n < |names| && Recorded(names, n + 1) && Kept(names, n)
      ensures output == old(output)
    {
      var i := 0;
      r := Loaded;
      while i < |names|
        invariant i <= |names|
        invariant Recorded(names, i) && Kept(names, i) && output == old(output)
        invariant i <= FirstEmptyGenerator(InitsOf(catalogue, names))
      {
        r := LoadNext(names, i, old(modules), old(initFuncs), old(initResults), old(plugs));
        InitsOfAt(catalogue, names, i);
        if r != Loaded {
          return;
        }
        i := i + 1;
      }
      r := Loaded;
    }

    /**
     * The loading part of `__init__` over the configured plugin names. Every
     * name is imported before any plugin runs, so one unknown name loads
     * nothing and ends in AttributeError; otherwise each plugin is loaded in
     * order, and StopIteration from a first advance escapes.
     */
    method LoadAll(names: seq<string>) returns (r: LoadOutcome)
      modifies this`modules, this`initFuncs, this`initResults, this`plugs, this`output
      ensures r != NotFound
      ensures r == AttributeErrorRaised <==> exists k :: 0 <= k < |names| && names[k] !in catalogue
      ensures r == AttributeErrorRaised ==>
        && modules == old(modules) && initFuncs == old(initFuncs) && initResults == old(initResults)
        && plugs == old(plugs)
      ensures r == StopIterationRaised <==>
        Known(names) && FirstEmptyGenerator(InitsOf(catalogue, names)) < |names|
      ensures r == Loaded ==> Known(names) && Recorded(names, |names|) && Kept(names, |names|)
      ensures r == StopIterationRaised ==>
        && Known(names)
        && var n := FirstEmptyGenerator(InitsOf(catalogue, names));
           n < |names| && Recorded(names, n + 1) && Kept(names, n)
      ensures |old(plugs)| <= |plugs| && plugs[..|old(plugs)|] == old(plugs) && output == old(output)
    {
      if exists k :: 0 <= k < |names| && names[k] !in catalogue {
        return AttributeErrorRaised;
      }
      r := LoadKnown(names);
      assert plugs[..|old(plugs)|] == old(plugs);
    }

    /** __exit__: advance every stored generator once more; StopIteration is swallowed. */
    method Exit()
      modifies this`initResults
      ensures |initResults| == |old(initResults)|
      ensures forall k :: 0 <= k < |initResults| ==> initResults[k] == Advance(old(initResults)[k]).0
    {
      var i := 0;
      while i < |initResults|
        invariant i <= |initResults| == |old(initResults)|
        invariant forall k :: 0 <= k < i ==> initResults[k] == Advance(old(initResults)[k]).0
        invariant forall k :: i <= k < |initResults| ==> initResults[k] == old(initResults)[k]
      {
        var next := Advance(initResults[i]);
        initResults := initResults[i := next.0];
        i := i + 1;
      }
    }

    /** send_msg: the text threaded through every send hook; None once one drops it. */
    method SendMsg(msg0: string) returns (msg: Option<string>)
      ensures msg == Chain(ApplySend, SendHooksOf(plugs), Some(msg0))
    {
      msg := Some(msg0);
      var i := 0;
      while i < |plugs|
        invariant i <= |plugs|
        invariant msg == Chain(ApplySend, SendHooksOf(plugs[..i]), Some(msg0))
      {
        ChainAppend(ApplySend, SendHooksOf(plugs[..i]), plugs[i].sendHooks, Some(msg0));
        msg := RunHooks(ApplySend, plugs[i].sendHooks, msg);
        assert plugs[..i + 1][..i] == plugs[..i];
        i := i + 1;
      }
      assert plugs[..i] == plugs;
    }

    /** recv_msg: the request threaded through every recv hook; None once one drops it. */
    method RecvMsg(req: Request, bans: Ban.BanList) returns (msg: Option<Request>)
      ensures msg == Chain(RecvApply(bans.names), RecvHooksOf(plugs), Some(req))
    {
      var apply := RecvApply(bans.names);
      msg := Some(req);
      var i := 0;
      while i < |plugs|
        invariant i <= |plugs|
        invariant msg == Chain(apply, RecvHooksOf(plugs[..i]), Some(req))
      {
        ChainAppend(apply, RecvHooksOf(plugs[..i]), plugs[i].recvHooks, Some(req));
        msg := RunHooks(apply, plugs[i].recvHooks, msg);
        assert plugs[..i + 1][..i] == plugs[..i];
        i := i + 1;
      }
      assert plugs[..i] == plugs;
    }

    /** get_commands: every plugin's commands merged in load order, a later plugin winning a clash. */
    method GetCommands() returns (cmds: map<string, Commands.Handler>)
      ensures cmds == CommandsOf(plugs)
    {
      cmds := map[];
      var i := 0;
      while i < |plugs|
        invariant i <= |plugs|
        invariant cmds == CommandsOf(plugs[..i])
      {
        assert plugs[..i + 1][..i] == plugs[..i];
        cmds := cmds + plugs[i].cmds;
        i := i + 1;
      }
      assert plugs[..i] == plugs;
    }
  }

  /** With the ban and cqd plugins loaded in that order, a request is dropped exactly when its sender is banned or it is a cqd message, and passes unchanged otherwise. */
  lemma BanThenCqd(banned: set<string>, req: Request)
    ensures var r := Chain(RecvApply(banned), RecvRegs(BAN_INIT.regs) + RecvRegs(CQD_INIT.regs), Some(req));
      && (r.None? <==> req.usrname in banned || Cqd.HasPrefix(req.msg))
      && (r.Some? ==> r.value == req)
  {
    assert RecvRegs(BAN_INIT.regs) == [BanFilter] by {
      var regs := BAN_INIT.regs;
      assert regs[..1] == [RecvHookReg(BanFilter)] && regs[..2][..1] == regs[..1] && regs[..3] == regs;
      assert RecvRegs(regs[..1]) == [BanFilter];
      assert RecvRegs(regs[..2]) == [BanFilter];
    }
    assert RecvRegs(CQD_INIT.regs) == [CqdFilter] by {
      var regs := CQD_INIT.regs;
      assert regs[..1] == [CmdReg("-cqd", Commands.CqdCmd)] && regs[..2] == regs;
      assert RecvRegs(regs[..1]) == [];
    }
    assert [BanFilter] + [CqdFilter] == [BanFilter, CqdFilter];
  }
}
