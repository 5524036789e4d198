/** The actions a key binding can invoke: spawning a program and quitting. */
module Commands {
  import opened Types
  import opened Configuration
  import opened WmState

  /** A program to start and its arguments, in order. */
  datatype Command = Command(program: string, args: seq<string>)

  /** Splits on every single space, as string splitting on a one-character pattern does:
      adjacent, leading and trailing spaces yield empty tokens, and "" yields [""]. */
  function Split(s: string): (r: seq<string>)
    ensures |r| >= 1
    ensures forall k :: 0 <= k < |r| ==> ' ' !in r[k]
  {
    if s == [] then [""]
    else
      var rest := Split(s[1..]);
      if s[0] == ' ' then [""] + rest
      else [[s[0]] + rest[0]] + rest[1..]
  }

  /** Joins tokens with single spaces. */
  function Join(ts: seq<string>): string
    requires |ts| >= 1
  {
    if |ts| == 1 then ts[0] else ts[0] + " " + Join(ts[1..])
  }

  /** The command a spawn binding starts: the first token is the program, the others
      its arguments; a binding whose argument is not a string starts nothing. */
  function SpawnCommand(arg: Arg): (r: Option<Command>)
    ensures arg.S? <==> r.Some?
    ensures r.Some? ==> Join([r.value.program] + r.value.args) == arg.s
    ensures r.Some? ==> ' ' !in r.value.program && forall k :: 0 <= k < |r.value.args| ==> ' ' !in r.value.args[k]
  {
    match arg
    case S(s) =>
      var v := Split(s);
      JoinSplit(s);
      assert [v[0]] + v[1..] == v;
      Some(Command(v[0], v[1..]))
    case _ => None
  }

  /** Stops the main loop and changes nothing else. */
  function Quit(arg: Arg, wm: WM): (r: WM)
    ensures !r.running
    ensures r == wm.(running := false)
  {
    wm.(running := false)
  }

  /** What a binding's action leaves behind: the new state and the programs it started. */
  datatype Outcome = Outcome(wm: WM, spawned: seq<Command>)

  /** Runs the action of a key binding. Spawning leaves the state alone. */
  function Apply(key: Key, wm: WM): (r: Outcome)
    ensures r.wm == wm.(running := r.wm.running)
    ensures r.wm.running <==> wm.running && key.func != Action.Quit
    ensures key.func == Action.Spawn ==> r.wm == wm
    ensures key.func == Action.Quit ==> r.spawned == []
    ensures |r.spawned| <= 1 && (|r.spawned| == 1 <==> key.func == Action.Spawn && key.arg.S?)
    ensures key.func == Action.Spawn && key.arg.S? ==> r.spawned == [SpawnCommand(key.arg).value]
  {
    match key.func
    case Spawn =>
      Outcome(wm, match SpawnCommand(key.arg) case Some(c) => [c] case None => [])
    case Quit => Outcome(Quit(key.arg, wm), [])
  }

  lemma JoinCons(c: char, t: string, ts: seq<string>)
    ensures Join([[c] + t] + ts) == [c] + Join([t] + ts)
  {
    if ts != [] {
      assert ([[c] + t] + ts)[1..] == ts;
      assert ([t] + ts)[1..] == ts;
    }
  }

  /** Joining the tokens of a split gives back the string. */
  lemma {:induction false} JoinSplit(s: string)
    ensures Join(Split(s)) == s
  {
    if s != [] {
      var rest := Split(s[1..]);
      JoinSplit(s[1..]);
      if s[0] == ' ' {
        assert ([""] + rest)[1..] == rest;
        assert Join([""] + rest) == " " + Join(rest);
      } else {
        assert [rest[0]] + rest[1..] == rest;
        JoinCons(s[0], rest[0], rest[1..]);
      }
      assert s == [s[0]] + s[1..];
    }
  }

  /** Splitting a space-free prefix glues it to the first token of the rest. */
  lemma {:induction false} SplitPrefix(a: string, b: string)
    requires ' ' !in a
    ensures Split(a + b) == [a + Split(b)[0]] + Split(b)[1..]
  {
    if a != [] {
      assert (a + b)[0] == a[0];
      assert (a + b)[1..] == a[1..] + b;
      SplitPrefix(a[1..], b);
      assert [a[0]] + (a[1..] + Split(b)[0]) == a + Split(b)[0];
    } else {
      assert a + b == b;
      assert a + Split(b)[0] == Split(b)[0];
      assert [Split(b)[0]] + Split(b)[1..] == Split(b);
    }
  }

  /** Splitting a join of space-free tokens gives back the tokens. */
  lemma {:induction false} SplitJoin(ts: seq<string>)
    requires |ts| >= 1
    requires forall k :: 0 <= k < |ts| ==> ' ' !in ts[k]
    ensures Split(Join(ts)) == ts
  {
    if |ts| == 1 {
      SplitPrefix(ts[0], "");
      assert ts[0] + "" == ts[0];
      assert Split(ts[0] + "") == [ts[0]];
    } else {
      SplitJoin(ts[1..]);
      SplitPrefix(ts[0], " " + Join(ts[1..]));
      assert ts[0] + " " + Join(ts[1..]) == ts[0] + (" " + Join(ts[1..]));
      var tail := " " + Join(ts[1..]);
      assert Split(tail) == [""] + ts[1..] by {
        assert tail[0] == ' ';
        assert tail[1..] == Join(ts[1..]);
      }
      assert Split(tail)[0] == "" && Split(tail)[1..] == ts[1..];
      assert ts[0] + "" == ts[0];
      assert Join(ts) == ts[0] + tail;
      assert [ts[0]] + ts[1..] == ts;
    }
  }

  /** A command whose tokens hold no space is the command of its own joined string. */
  lemma SpawnRoundTrip(program: string, args: seq<string>)
    requires ' ' !in program && forall k :: 0 <= k < |args| ==> ' ' !in args[k]
    ensures SpawnCommand(S(Join([program] + args))) == Some(Command(program, args))
  {
    var ts := [program] + args;
    assert forall k :: 0 <= k < |ts| ==> ' ' !in ts[k] by {
      forall k | 0 <= k < |ts| ensures ' ' !in ts[k] {
        if k > 0 { assert ts[k] == args[k - 1]; }
      }
    }
    SplitJoin(ts);
    assert ts[1..] == args;
  }
}
