/*
 * The decisions `initialize` takes in python/mach_initialize.py once the
 * environment is set up: refusing a checkout path with a space, answering
 * `populate_context`, ordering the driver's settings paths, and choosing
 * which command modules to load — all of them, or only the commands the
 * invoked one depends on, found by a depth-first search that marks what it
 * has visited.
 */
module MachInitialize {
  import opened Wrappers

  /** `check_for_spaces(topsrcdir)`: the exception's message when the path has a space. */
  function CheckForSpaces(topsrcdir: string): (r: Result<(), string>)
    ensures r.Err? <==> ' ' in topsrcdir
    ensures r.Err? ==> r.error == SpaceMessage(topsrcdir)
  {
    if ' ' in topsrcdir then Err(SpaceMessage(topsrcdir)) else Ok(())
  }

  function SpaceMessage(topsrcdir: string): string
  {
    "Your checkout at path '" + topsrcdir + "' contains a space, which "
    + "is not supported. Please move it to somewhere that does not "
    + "have a space in the path before rerunning mach."
  }

  /** What `populate_context` hands back: nothing, a path, or one of the two dispatch hooks. */
  datatype ContextValue = NoValue | Path(path: string) | PreDispatchHandler | PostDispatchHandler

  /** The directories `populate_context` knows; `local_state_dir` comes from `get_state_dir`, a parameter here. */
  datatype Dirs = Dirs(stateDir: string, localStateDir: string, topsrcdir: string)

  const CONTEXT_KEYS: seq<string> :=
    ["state_dir", "local_state_dir", "topdir", "pre_dispatch_handler", "post_dispatch_handler", "repository"]

  /** `populate_context(key)`; `Err(key)` is the AttributeError it raises. */
  function PopulateContext(key: Option<string>, dirs: Dirs): (r: Result<ContextValue, string>)
    ensures key.None? ==> r == Ok(NoValue)
    ensures r.Err? <==> key.Some? && key.value !in CONTEXT_KEYS
    ensures r.Err? ==> r.error == key.value
  {
    match key
    case None => Ok(NoValue)
    case Some(k) =>
      if k == "state_dir" then Ok(Path(dirs.stateDir))
      else if k == "local_state_dir" then Ok(Path(dirs.localStateDir))
      else if k == "topdir" then Ok(Path(dirs.topsrcdir))
      else if k == "pre_dispatch_handler" then Ok(PreDispatchHandler)
      else if k == "post_dispatch_handler" then Ok(PostDispatchHandler)
      else if k == "repository" then Ok(NoValue)
      else Err(k)
  }

  /** Each known key is answered with its own value; the repository is never resolved. */
  lemma ContextValues(dirs: Dirs)
    ensures PopulateContext(Some("state_dir"), dirs) == Ok(Path(dirs.stateDir))
    ensures PopulateContext(Some("local_state_dir"), dirs) == Ok(Path(dirs.localStateDir))
    ensures PopulateContext(Some("topdir"), dirs) == Ok(Path(dirs.topsrcdir))
    ensures PopulateContext(Some("repository"), dirs) == Ok(NoValue)
  {
  }

  /** The part of `mach.main.Mach` that `initialize` touches. */
  class Driver {
    var settingsPaths: seq<string>

    constructor(settingsPaths: seq<string>)
      ensures this.settingsPaths == settingsPaths
    {
      this.settingsPaths := settingsPaths;
    }

    /** The global machrc location only when there is none yet; the checkout's configuration always, last. */
    method AddSettingsPaths(stateDir: string, topsrcdir: string)
      modifies this
      ensures settingsPaths == SettingsPaths(old(settingsPaths), stateDir, topsrcdir)
    {
      if settingsPaths == [] {
        settingsPaths := settingsPaths + [stateDir];
      }
      settingsPaths := settingsPaths + [topsrcdir];
    }
  }

  /** The settings paths after `initialize` has added its own. */
  function SettingsPaths(paths: seq<string>, stateDir: string, topsrcdir: string): (r: seq<string>)
    ensures |r| >= 1 && r[|r| - 1] == topsrcdir
    ensures paths == [] ==> r == [stateDir, topsrcdir]
    ensures paths != [] ==> r[..|r| - 1] == paths
  {
    (if paths == [] then [stateDir] else paths) + [topsrcdir]
  }

  /**
   * `MACH_COMMANDS`: each command's `command_dependencies`; an entry that
   * is `None` stands for a falsy reference, which `get` treats as absent.
   */
  type MachCommands = map<string, Option<seq<string>>>

  /** `MACH_COMMANDS.get(command)` is truthy. */
  predicate Known(commands: MachCommands, command: string)
  {
    command in commands && commands[command].Some?
  }

  function Dependencies(commands: MachCommands, command: string): seq<string>
    requires Known(commands, command)
  {
    commands[command].value
  }

  function KnownCommands(commands: MachCommands): set<string>
  {
    set c | c in commands && commands[c].Some?
  }

  /** `path` follows dependencies through known commands. */
  ghost predicate IsPath(commands: MachCommands, path: seq<string>)
  {
    |path| >= 1
    && (forall i :: 0 <= i < |path| ==> Known(commands, path[i]))
    && (forall i :: 0 <= i < |path| - 1 ==> path[i + 1] in Dependencies(commands, path[i]))
  }

  /** `to` is `from`, or one of its dependencies, transitively, all known. */
  ghost predicate Reaches(commands: MachCommands, from: string, to: string)
  {
    exists path :: IsPath(commands, path) && path[0] == from && path[|path| - 1] == to
  }

  /**
   * The visited set is closed under dependencies, except at the commands
   * still being expanded (`pending`): every known dependency of a finished
   * command has been visited.
   */
  ghost predicate Closed(commands: MachCommands, visited: set<string>, pending: set<string>)
  {
    forall c, d :: c in visited && c !in pending && Known(commands, c) && d in Dependencies(commands, c) && Known(commands, d)
      ==> d in visited
  }

  lemma ReachesItself(commands: MachCommands, c: string)
    requires Known(commands, c)
    ensures Reaches(commands, c, c)
  {
    assert IsPath(commands, [c]);
  }

  lemma ReachesThrough(commands: MachCommands, c: string, d: string, v: string)
    requires Known(commands, c) && d in Dependencies(commands, c)
    requires Reaches(commands, d, v)
    ensures Reaches(commands, c, v)
  {
    var path :| IsPath(commands, path) && path[0] == d && path[|path| - 1] == v;
    var longer := [c] + path;
    assert forall i :: 0 < i < |longer| ==> longer[i] == path[i - 1];
    assert IsPath(commands, longer);
  }

  /** A set that holds `top` and is closed under dependencies holds everything `top` reaches. */
  lemma {:induction false} ClosedHoldsReachable(commands: MachCommands, visited: set<string>, path: seq<string>)
    requires Closed(commands, visited, {})
    requires IsPath(commands, path) && path[0] in visited
    ensures path[|path| - 1] in visited
    decreases |path|
  {
    if |path| > 1 {
      var rest := path[1..];
      assert IsPath(commands, rest) by {
        assert forall i :: 0 <= i < |rest| ==> rest[i] == path[i + 1];
      }
      ClosedHoldsReachable(commands, visited, rest);
    }
  }

  /** The search of `commands_to_load`, with its `visited` set. */
  class DependencySearch {
    const commands: MachCommands
    var visited: set<string>

    constructor(commands: MachCommands)
      ensures this.commands == commands && visited == {}
    {
      this.commands := commands;
      visited := {};
    }

    /**
     * `find_downstream_commands_recursively(command)`. `pending` holds the
     * commands whose dependencies are still being walked by the callers.
     */
    method FindDownstream(command: string, ghost pending: set<string>)
      requires visited <= KnownCommands(commands) && pending <= visited
      requires Closed(commands, visited, pending)
      modifies this
      ensures old(visited) <= visited <= KnownCommands(commands)
      ensures Closed(commands, visited, pending)
      ensures Known(commands, command) ==> command in visited
      ensures forall v :: v in visited - old(visited) ==> Reaches(commands, command, v)
      decreases |KnownCommands(commands) - visited|
    {
      if command !in commands || commands[command].None? {
        return;
      }
      if command in visited {
        return;
      }
      visited := visited + {command};
      ReachesItself(commands, command);
      var dependencies := commands[command].value;
      var i := 0;
      while i < |dependencies|
        invariant 0 <= i <= |dependencies|
        invariant old(visited) + {command} <= visited <= KnownCommands(commands)
        invariant Closed(commands, visited, pending + {command})
        invariant forall d :: d in dependencies[..i] && Known(commands, d) ==> d in visited
        invariant forall v :: v in visited - old(visited) ==> Reaches(commands, command, v)
      {
        ghost var before := visited;
        FewerUnvisited(KnownCommands(commands), old(visited), visited, command);
        FindDownstream(dependencies[i], pending + {command});
        assert dependencies[..i + 1] == dependencies[..i] + [dependencies[i]];
        forall v | v in visited - old(visited)
          ensures Reaches(commands, command, v)
        {
          if v !in before {
            ReachesThrough(commands, command, dependencies[i], v);
          }
        }
        i := i + 1;
      }
    }
  }

  /** Adding an unvisited known command shrinks the set of known, unvisited commands. */
  lemma FewerUnvisited(known: set<string>, before: set<string>, after: set<string>, command: string)
    requires command in known && command !in before && before + {command} <= after
    ensures |known - after| < |known - before|
  {
    assert known - after <= (known - before) - {command};
    assert command in known - before;
    SubsetCard(known - after, (known - before) - {command});
  }

  lemma SubsetCard(a: set<string>, b: set<string>)
    requires a <= b
    ensures |a| <= |b|
  {
    assert b == a + (b - a);
  }

  /** `commands_to_load(top_level_command)`: every command `top` reaches, each once (as a set). */
  method CommandsToLoad(commands: MachCommands, top: string) returns (names: set<string>)
    ensures forall v :: v in names <==> Reaches(commands, top, v)
    ensures names <= KnownCommands(commands)
    ensures !Known(commands, top) ==> names == {}
  {
    var search := new DependencySearch(commands);
    search.FindDownstream(top, {});
    names := search.visited;
    forall v | Reaches(commands, top, v)
      ensures v in names
    {
      var path :| IsPath(commands, path) && path[0] == top && path[|path| - 1] == v;
      ClosedHoldsReachable(commands, names, path);
    }
  }

  /** `commands_that_need_all_modules_loaded`. */
  const NEED_ALL_MODULES: seq<string> := ["busted", "help", "mach-commands", "mach-completion", "mach-debug-commands"]

  /**
   * `command_modules_to_load`: every command when the invoked one is not
   * known or needs them all, otherwise the commands it reaches.
   */
  method ModulesToLoad(commandName: Option<string>, commands: MachCommands) returns (modules: MachCommands)
    ensures commandName.None? || commandName.value !in commands || commandName.value in NEED_ALL_MODULES ==>
      modules == commands
    ensures commandName.Some? && commandName.value in commands && commandName.value !in NEED_ALL_MODULES ==>
      modules.Keys <= commands.Keys
      && (forall c :: c in modules ==> modules[c] == commands[c])
      && (forall c :: c in modules <==> Reaches(commands, commandName.value, c))
  {
    if commandName.None? || commandName.value !in commands || commandName.value in NEED_ALL_MODULES {
      modules := commands;
    } else {
      var names := CommandsToLoad(commands, commandName.value);
      modules := map c | c in names :: commands[c];
    }
  }

  /** A command that depends on itself, through any cycle, is loaded once and the search ends. */
  lemma CycleIsHarmless(commands: MachCommands, a: string, b: string)
    requires commands == map[a := Some([b]), b := Some([a])] && a != b
    ensures Reaches(commands, a, b) && Reaches(commands, b, a)
  {
    assert IsPath(commands, [a, b]);
    assert IsPath(commands, [b, a]);
  }
}
