/**
 * The terminals the extension runs its commands in. A terminal is created once per name
 * and cached in the module-level `terminals` dictionary; every later request for that name
 * gets the cached one. A terminal is modelled by its name and the texts sent to it.
 */
module Terminals {
  import opened Text

  class Terminal {
    const name: string
    var sent: seq<string>

    /** `vscode.window.createTerminal({ name, shellPath: "/bin/bash" })`. */
    constructor (name: string)
      ensures this.name == name && sent == []
    {
      this.name := name;
      sent := [];
    }

    /** `terminal.sendText(text)`. */
    method SendText(text: string)
      modifies this
      ensures sent == old(sent) + [text]
    {
      sent := sent + [text];
    }
  }

  /** The `terminals` dictionary: name to terminal. */
  class TerminalRegistry {
    var terminals: map<string, Terminal>

    /** Every cached terminal carries the name it is cached under, so no two names share one. */
    ghost predicate Valid()
      reads this, terminals.Values
    {
      forall n :: n in terminals ==> terminals[n].name == n
    }

    constructor ()
      ensures terminals == map[] && Valid()
    {
      terminals := map[];
    }

    /**
     * `getOrCreateTerminal(name)`: the cached terminal when there is one; otherwise a new
     * terminal, cached under `name`, with every other entry left as it was.
     */
    method GetOrCreate(name: string) returns (t: Terminal)
      requires Valid()
      modifies this
      ensures Valid()
      ensures name in terminals && terminals[name] == t && t.name == name
      ensures name in old(terminals) ==> t == old(terminals)[name] && terminals == old(terminals)
      ensures name !in old(terminals) ==> fresh(t) && t.sent == [] && terminals == old(terminals)[name := t]
    {
      if name in terminals {
        return terminals[name];
      }
      t := new Terminal(name);
      terminals := terminals[name := t];
    }

    /** Two requests for the same name give the same terminal, created at most once. */
    method GetOrCreateTwice(name: string) returns (first: Terminal, second: Terminal)
      requires Valid()
      modifies this
      ensures Valid() && first == second
      ensures terminals == old(terminals)[name := first]
      ensures name in old(terminals) ==> first == old(terminals)[name]
    {
      first := GetOrCreate(name);
      second := GetOrCreate(name);
    }

    /** `terminalRun(containerName, command)`: the command, unchanged, to the container's terminal. */
    method TerminalRun(containerName: string, command: string) returns (t: Terminal)
      requires Valid()
      modifies this, terminals.Values
      ensures Valid()
      ensures Delivered(this, old(terminals), old(SentTexts(terminals)), containerName, command)
      ensures t == terminals[containerName]
    {
      t := GetOrCreate(containerName);
      t.SendText(command);
    }

    /**
     * `runMultilineCommandsOnTerminal(containerName, commands)`: every command followed by
     * ";", sent as one text to the container's terminal.
     */
    method RunMultilineCommands(containerName: string, commands: seq<string>) returns (t: Terminal)
      requires Valid()
      modifies this, terminals.Values
      ensures Valid()
      ensures Delivered(this, old(terminals), old(SentTexts(terminals)), containerName, Join(commands + [""], ";"))
      ensures t == terminals[containerName]
    {
      t := GetOrCreate(containerName);
      var cmd := JoinCommands(commands);
      t.SendText(cmd);
    }
  }

  /** What every cached terminal has received so far. */
  function SentTexts(terminals: map<string, Terminal>): (sent: map<string, seq<string>>)
    reads terminals.Values
    ensures sent.Keys == terminals.Keys
    ensures forall n :: n in terminals ==> sent[n] == terminals[n].sent
  {
    map n | n in terminals :: terminals[n].sent
  }

  /** Texts only change by being sent: a registry and terminals left alone have the same texts. */
  twostate lemma SentTextsUnchanged(registry: TerminalRegistry)
    requires unchanged(registry)
    requires forall n :: n in registry.terminals ==> unchanged(registry.terminals[n])
    ensures SentTexts(registry.terminals) == old(SentTexts(registry.terminals))
  {
  }

  /**
   * One text went to the terminal cached under `name`, created if it was missing: measured
   * against the dictionary `before` and the texts `sentBefore`, that terminal has received
   * `text` after what it had, and no other terminal changed.
   */
  predicate Delivered(registry: TerminalRegistry, before: map<string, Terminal>, sentBefore: map<string, seq<string>>,
                      name: string, text: string)
    reads registry, registry.terminals.Values
  {
    && name in registry.terminals
    && registry.terminals == before[name := registry.terminals[name]]
    && registry.terminals[name].name == name
    && registry.terminals[name].sent == (if name in sentBefore then sentBefore[name] else []) + [text]
    && forall n :: n in sentBefore && n != name ==> n in registry.terminals && registry.terminals[n].sent == sentBefore[n]
  }

  /** No terminal was created and none received anything. */
  predicate Unchanged(registry: TerminalRegistry, before: map<string, Terminal>, sentBefore: map<string, seq<string>>)
    reads registry, registry.terminals.Values
  {
    registry.terminals == before && SentTexts(registry.terminals) == sentBefore
  }

  /** The `forEach` that appends `${command};` to `cmd` for every command, in order. */
  method JoinCommands(commands: seq<string>) returns (cmd: string)
    ensures cmd == Join(commands + [""], ";")
  {
    cmd := "";
    var i := 0;
    while i < |commands|
      invariant 0 <= i <= |commands|
      invariant cmd == Join(commands[..i] + [""], ";")
    {
      JoinTerminated(commands[..i], commands[i]);
      assert commands[..i + 1] == commands[..i] + [commands[i]];
      cmd := cmd + commands[i] + ";";
      i := i + 1;
    }
    assert commands[..i] == commands;
  }

  /** One more command adds the command and its ";" to the end of the joined text. */
  lemma {:induction false} JoinTerminated(commands: seq<string>, c: string)
    ensures Join(commands + [c] + [""], ";") == Join(commands + [""], ";") + c + ";"
    decreases |commands|
  {
    if commands != [] {
      JoinTerminated(commands[1..], c);
      assert commands + [c] + [""] == [commands[0]] + (commands[1..] + [c] + [""]);
      assert commands + [""] == [commands[0]] + (commands[1..] + [""]);
    }
  }

  /** The joined text is the commands, each ended by ";": splitting it at ";" gives them back. */
  lemma CommandsRoundTrip(commands: seq<string>)
    requires forall k :: 0 <= k < |commands| ==> ';' !in commands[k]
    ensures SplitOn(Join(commands + [""], ";"), ';') == commands + [""]
    ensures |Join(commands + [""], ";")| == |commands| + SumOfLengths(commands)
  {
    var xs := commands + [""];
    assert forall k :: 0 <= k < |xs| ==> ';' !in xs[k];
    SplitOnJoin(xs, ';');
    JoinedLength(commands);
  }

  function SumOfLengths(xs: seq<string>): nat {
    if xs == [] then 0 else |xs[0]| + SumOfLengths(xs[1..])
  }

  lemma {:induction false} JoinedLength(commands: seq<string>)
    ensures |Join(commands + [""], ";")| == |commands| + SumOfLengths(commands)
    decreases |commands|
  {
    if commands != [] {
      JoinedLength(commands[1..]);
      assert commands + [""] == [commands[0]] + (commands[1..] + [""]);
    }
  }
}
