/**
 The `run`, `exec` and `logs` commands: each turns its flags into a list of argument
 parts in a fixed order, appends the positional arguments, joins the parts with single
 spaces and hands the text to `docker compose -f "<compose file>"`.

 Every flag is one slot of a table: a switch that emits a fixed token, a valued flag
 that emits `prefix + value` when the value is truthy, or a repeated flag that emits
 `prefix + value` for each of its values.  A string flag that is unset and one set to
 the empty string are both falsy, so both are modelled as `""`; likewise an unset
 integer and `0`.  The table is read back by a decoder that takes the slots in order.
 */
module ComposeArgs {

  import opened Wrappers
  import opened Strings
  import opened Json
  import ComposeState

  // ---------------------------------------------------------------- flag tables

  /** How a flag turns into parts. */
  datatype Kind = Switch | Valued | Repeated

  /** A flag and its spelling: the token a switch pushes, or the prefix of a valued or
      repeated flag's parts. */
  datatype Slot = Slot(kind: Kind, spelling: string)

  /** The value of one slot: a switch is on or off, a valued flag holds its text (`""` when
      unset), a repeated flag its values in the order they were given. */
  datatype Setting = On(on: bool) | Val(text: string) | Vals(texts: seq<string>)

  /** The text every part the slot emits starts with. */
  function Spelling(s: Slot): string
  {
    s.spelling
  }

  predicate Fits(slot: Slot, s: Setting)
  {
    match slot.kind
    case Switch => s.On?
    case Valued => s.Val?
    case Repeated => s.Vals?
  }

  predicate AllFit(slots: seq<Slot>, ss: seq<Setting>)
  {
    |slots| == |ss| && forall i :: 0 <= i < |slots| ==> Fits(slots[i], ss[i])
  }

  /** The parts one slot pushes. */
  function Emit(slot: Slot, s: Setting): (r: seq<string>)
    requires Fits(slot, s)
    ensures forall k :: 0 <= k < |r| ==> StartsWith(r[k], Spelling(slot))
  {
    var p := slot.spelling;
    match slot.kind
    case Switch => if s.on then [p] else []
    case Valued =>
      assert StartsWith(p + s.text, p) by { assert (p + s.text)[..|p|] == p; }
      if s.text != "" then [p + s.text] else []
    case Repeated =>
      var r := seq(|s.texts|, k requires 0 <= k < |s.texts| => p + s.texts[k]);
      assert forall k :: 0 <= k < |r| ==> StartsWith(r[k], p) by {
        forall k | 0 <= k < |r| ensures StartsWith(r[k], p) {
          assert r[k][..|p|] == p;
        }
      }
      r
  }

  /** The parts all slots push, slot by slot. */
  function EmitAll(slots: seq<Slot>, ss: seq<Setting>): seq<string>
    requires AllFit(slots, ss)
    decreases |slots|
  {
    if |slots| == 0 then [] else Emit(slots[0], ss[0]) + EmitAll(slots[1..], ss[1..])
  }

  /** Reads one slot off the front of the parts. */
  function Take(slot: Slot, parts: seq<string>): (r: (Setting, seq<string>))
    ensures Fits(slot, r.0) && |r.1| <= |parts|
    decreases |parts|
  {
    var p := slot.spelling;
    match slot.kind
    case Switch =>
      if |parts| > 0 && parts[0] == p then (On(true), parts[1..]) else (On(false), parts)
    case Valued =>
      if |parts| > 0 && StartsWith(parts[0], p) && |parts[0]| > |p| then (Val(parts[0][|p|..]), parts[1..])
      else (Val(""), parts)
    case Repeated =>
      if |parts| > 0 && StartsWith(parts[0], p) then
        var (more, rest) := Take(slot, parts[1..]);
        (Vals([parts[0][|p|..]] + more.texts), rest)
      else (Vals([]), parts)
  }

  /** Reads every slot in order; what is left over are the positional arguments. */
  function DecodeAll(slots: seq<Slot>, parts: seq<string>): (r: (seq<Setting>, seq<string>))
    ensures AllFit(slots, r.0)
    decreases |slots|
  {
    if |slots| == 0 then ([], parts)
    else
      var (s, rest) := Take(slots[0], parts);
      var (ss, left) := DecodeAll(slots[1..], rest);
      ([s] + ss, left)
  }

  // ---------------------------------------------------------------- telling slots apart

  /** A flag spelling: a dash and a letter, or two dashes and at least two more characters. */
  predicate Shaped(x: string)
  {
    |x| >= 2 && x[0] == '-' && (x[1] == '-' ==> |x| >= 4)
  }

  /** What tells flag spellings apart: the letter after a single dash, or the two
      characters after a double dash. */
  function Tag(x: string): int
    requires Shaped(x)
  {
    if x[1] != '-' then x[1] as int else 0x1_0000_0000 + 0x10_0000 * (x[2] as int) + x[3] as int
  }

  /** Every spelling is shaped and no two share a tag. */
  predicate TagsApart(ps: seq<string>)
  {
    && (forall i :: 0 <= i < |ps| ==> Shaped(ps[i]))
    && (forall i, j :: 0 <= i < j < |ps| ==> Tag(ps[i]) != Tag(ps[j]))
  }

  function Tags(ps: seq<string>): (ts: seq<int>)
    requires forall i :: 0 <= i < |ps| ==> Shaped(ps[i])
    ensures |ts| == |ps| && forall i :: 0 <= i < |ps| ==> ts[i] == Tag(ps[i])
  {
    seq(|ps|, i requires 0 <= i < |ps| => Tag(ps[i]))
  }

  /** Spellings are apart when their tags, worked out once, are pairwise different. */
  lemma ApartByTags(ps: seq<string>, ts: seq<int>)
    requires forall i :: 0 <= i < |ps| ==> Shaped(ps[i])
    requires Tags(ps) == ts && forall i, j :: 0 <= i < j < |ts| ==> ts[i] != ts[j]
    ensures TagsApart(ps)
  {
  }

  function Spellings(slots: seq<Slot>): (r: seq<string>)
    ensures |r| == |slots| && forall i :: 0 <= i < |slots| ==> r[i] == slots[i].spelling
  {
    seq(|slots|, i requires 0 <= i < |slots| => slots[i].spelling)
  }

  /** No part one slot emits can be taken for another slot's part. */
  predicate Table(slots: seq<Slot>)
  {
    TagsApart(Spellings(slots))
  }

  /** A table whose slots pair the given kinds and spellings. */
  function Zip(kinds: seq<Kind>, spellings: seq<string>): (r: seq<Slot>)
    requires |kinds| == |spellings|
    ensures Spellings(r) == spellings
    ensures forall i :: 0 <= i < |r| ==> r[i].kind == kinds[i]
  {
    var r := seq(|kinds|, i requires 0 <= i < |kinds| => Slot(kinds[i], spellings[i]));
    assert Spellings(r) == spellings;
    r
  }

  /** A text that starts with a shaped spelling is shaped and has its tag. */
  lemma TagOfPrefixed(x: string, p: string)
    requires Shaped(p) && StartsWith(x, p)
    ensures Shaped(x) && Tag(x) == Tag(p)
  {
    assert x[0] == p[0] && x[1] == p[1];
    if p[1] == '-' { assert x[2] == p[2] && x[3] == p[3]; }
  }

  /** The kind of slot a setting fits. */
  function KindOf(s: Setting): Kind
  {
    match s
    case On(_) => Switch
    case Val(_) => Valued
    case Vals(_) => Repeated
  }

  function Kinds(ss: seq<Setting>): (r: seq<Kind>)
    ensures |r| == |ss| && forall i :: 0 <= i < |ss| ==> r[i] == KindOf(ss[i])
  {
    seq(|ss|, i requires 0 <= i < |ss| => KindOf(ss[i]))
  }

  /** Settings fit a table exactly when their kinds are the table's kinds. */
  lemma ZipFits(kinds: seq<Kind>, spellings: seq<string>, ss: seq<Setting>)
    requires |kinds| == |spellings| && Kinds(ss) == kinds
    ensures AllFit(Zip(kinds, spellings), ss)
  {
    var slots := Zip(kinds, spellings);
    forall i | 0 <= i < |slots| ensures Fits(slots[i], ss[i]) {
      assert slots[i].kind == KindOf(ss[i]);
    }
  }

  /** A positional argument does not look like a flag. */
  predicate Positional(argv: seq<string>)
  {
    |argv| == 0 || |argv[0]| == 0 || argv[0][0] != '-'
  }

  /** The parts after slot 0 never start with slot 0's spelling. */
  lemma {:induction false} LaterPartsDiffer(slots: seq<Slot>, ss: seq<Setting>, argv: seq<string>)
    requires |slots| >= 1 && Table(slots) && AllFit(slots, ss) && Positional(argv)
    ensures
      var next := EmitAll(slots[1..], ss[1..]) + argv;
      |next| == 0 || !StartsWith(next[0], Spelling(slots[0]))
  {
    var p := Spelling(slots[0]);
    var e := EmitAll(slots[1..], ss[1..]);
    var next := e + argv;
    assert Spellings(slots)[0] == p;
    if |e| > 0 {
      var j := FirstEmitting(slots[1..], ss[1..]);
      assert next[0] == e[0];
      TagOfPrefixed(e[0], Spelling(slots[1..][j]));
      assert slots[1..][j] == slots[j + 1];
      assert Spellings(slots)[j + 1] == Spelling(slots[1..][j]);
      NotPrefixed(e[0], p);
    } else if |next| > 0 {
      assert next[0] == argv[0] && |p| >= 2;
      if |argv[0]| > 0 { assert next[0][0] != p[0]; }
    }
  }

  /** A shaped text with another tag does not start with the spelling. */
  lemma NotPrefixed(x: string, p: string)
    requires Shaped(x) && Shaped(p) && Tag(x) != Tag(p)
    ensures !StartsWith(x, p)
  {
    if x[1] != p[1] {
      assert p[1] != x[1];
    } else {
      assert x[1] == '-' && |x| >= 4 && |p| >= 4;
      if x[2] != p[2] {
        assert p[2] != x[2];
      } else {
        assert p[3] != x[3];
      }
    }
  }

  /** The slot the first emitted part comes from. */
  lemma {:induction false} FirstEmitting(slots: seq<Slot>, ss: seq<Setting>) returns (j: nat)
    requires AllFit(slots, ss) && |EmitAll(slots, ss)| > 0
    ensures j < |slots| && StartsWith(EmitAll(slots, ss)[0], Spelling(slots[j]))
    decreases |slots|
  {
    var first := Emit(slots[0], ss[0]);
    if |first| > 0 {
      j := 0;
    } else {
      assert EmitAll(slots, ss) == EmitAll(slots[1..], ss[1..]);
      j := FirstEmitting(slots[1..], ss[1..]);
      j := j + 1;
    }
  }

  /** One slot is read back from what it emitted, up to the first part that does not
      start with its spelling. */
  lemma {:induction false} TakeEmit(slot: Slot, s: Setting, next: seq<string>)
    requires Fits(slot, s)
    requires |next| == 0 || !StartsWith(next[0], Spelling(slot))
    ensures Take(slot, Emit(slot, s) + next) == (s, next)
  {
    var p := slot.spelling;
    match slot.kind
    case Switch =>
      if s.on {
        assert ([p] + next)[1..] == next;
      } else {
        assert [] + next == next;
        assert p[..|p|] == p;
      }
    case Valued =>
      if s.text != "" {
        var part := p + s.text;
        assert part[..|p|] == p && part[|p|..] == s.text;
        assert ([part] + next)[1..] == next;
      } else {
        assert [] + next == next;
      }
    case Repeated =>
      TakeRepeated(p, s.texts, next);
  }

  lemma {:induction false} TakeRepeated(p: string, vs: seq<string>, next: seq<string>)
    requires |next| == 0 || !StartsWith(next[0], p)
    ensures Take(Slot(Repeated, p), Emit(Slot(Repeated, p), Vals(vs)) + next) == (Vals(vs), next)
    decreases |vs|
  {
    var parts := Emit(Slot(Repeated, p), Vals(vs)) + next;
    if |vs| == 0 {
      assert parts == next;
    } else {
      var part := p + vs[0];
      assert parts[0] == part && part[..|p|] == p && part[|p|..] == vs[0];
      assert parts[1..] == Emit(Slot(Repeated, p), Vals(vs[1..])) + next;
      TakeRepeated(p, vs[1..], next);
      assert [vs[0]] + vs[1..] == vs;
    }
  }

  /** Decoding undoes emitting: every slot reads back its setting and the positional
      arguments are what is left. */
  lemma {:induction false} DecodeEmit(slots: seq<Slot>, ss: seq<Setting>, argv: seq<string>)
    requires Table(slots) && AllFit(slots, ss) && Positional(argv)
    ensures DecodeAll(slots, EmitAll(slots, ss) + argv) == (ss, argv)
    decreases |slots|
  {
    if |slots| > 0 {
      var next := EmitAll(slots[1..], ss[1..]) + argv;
      var parts := EmitAll(slots, ss) + argv;
      assert parts == Emit(slots[0], ss[0]) + next;
      assert Take(slots[0], parts) == (ss[0], next) by {
        LaterPartsDiffer(slots, ss, argv);
        TakeEmit(slots[0], ss[0], next);
      }
      assert DecodeAll(slots[1..], next) == (ss[1..], argv) by {
        TableTail(slots, ss);
        DecodeEmit(slots[1..], ss[1..], argv);
      }
      assert [ss[0]] + ss[1..] == ss;
    } else {
      assert EmitAll(slots, ss) + argv == argv;
    }
  }

  lemma TableTail(slots: seq<Slot>, ss: seq<Setting>)
    requires |slots| >= 1 && Table(slots) && AllFit(slots, ss)
    ensures Table(slots[1..]) && AllFit(slots[1..], ss[1..])
  {
    var ps := Spellings(slots);
    assert Spellings(slots[1..]) == ps[1..];
    forall i, j | 0 <= i < j < |ps[1..]| ensures Tag(ps[1..][i]) != Tag(ps[1..][j]) {
      assert ps[1..][i] == ps[i + 1] && ps[1..][j] == ps[j + 1];
    }
  }

  // ---------------------------------------------------------------- the commands

  /** What every command does without a compose file: stop with this message. */
  const NoComposeMessage: string := "No docker-compose file found. Run compile or switch first."

  /** The error a command stops with, carrying the text it reports. */
  datatype CommandError = NoComposeFile(message: string)

  /** The text handed to the shell: the parts joined by single spaces, run against the
      project's compose file; an error before anything runs when there is none. */
  function Invocation(compose: Option<string>, parts: seq<string>): (r: Result<string, CommandError>)
    ensures r.Err? <==> compose.None? || compose.value == ""
    ensures r.Err? ==> r.error == NoComposeFile(NoComposeMessage)
    ensures r.Ok? && '"' !in compose.value ==>
      ComposeState.ParseComposeCommand(r.value) == Some((compose.value, Join(parts, " ")))
  {
    if compose.None? || compose.value == "" then Err(NoComposeFile(NoComposeMessage))
    else if '"' in compose.value then Ok(ComposeState.ComposeCommand(compose.value, Join(parts, " ")))
    else
      ComposeState.ComposeCommandParts(compose.value, Join(parts, " "));
      Ok(ComposeState.ComposeCommand(compose.value, Join(parts, " ")))
  }

  // ---------------------------------------------------------------- run

  datatype RunFlags = RunFlags(
    detach: bool, name: string, entrypoint: string, env: seq<string>, labels: seq<string>,
    user: string, noDeps: bool, rm: bool, publish: seq<string>, servicePorts: bool,
    useAliases: bool, volume: seq<string>, noTty: bool, workdir: string)

  /** The flags of `run` in the order their parts are pushed: the scalar flags first, then
      every `-e`, every `-l`, every `-p` and every `-v`. */
  const RunSpellings: seq<string> := [
    "-d", "--name ", "--entrypoint ", "-u ", "--no-deps", "--rm", "--service-ports", "--use-aliases",
    "-T", "-w ", "-e ", "-l ", "-p ", "-v "]

  const RunKinds: seq<Kind> := [
    Switch, Valued, Valued, Valued, Switch, Switch, Switch, Switch,
    Switch, Valued, Repeated, Repeated, Repeated, Repeated]

  const RunSlots: seq<Slot> := Zip(RunKinds, RunSpellings)

  function RunSettings(f: RunFlags): (r: seq<Setting>)
    ensures AllFit(RunSlots, r)
  {
    var r := [On(f.detach), Val(f.name), Val(f.entrypoint), Val(f.user),
      On(f.noDeps), On(f.rm), On(f.servicePorts), On(f.useAliases),
      On(f.noTty), Val(f.workdir),
      Vals(f.env), Vals(f.labels), Vals(f.publish), Vals(f.volume)];
    assert Kinds(r) == RunKinds;
    ZipFits(RunKinds, RunSpellings, r);
    r
  }

  function RunFlagsOf(ss: seq<Setting>): RunFlags
    requires AllFit(RunSlots, ss)
  {
    RunFlags(ss[0].on, ss[1].text, ss[2].text, ss[10].texts, ss[11].texts,
             ss[3].text, ss[4].on, ss[5].on, ss[12].texts, ss[6].on,
             ss[7].on, ss[13].texts, ss[8].on, ss[9].text)
  }

  lemma RunTable()
    ensures Table(RunSlots)
  {
    var ps := RunSpellings;
    assert forall i :: 0 <= i < |ps| ==> Shaped(ps[i]);
    var ts := [100, 4410310753, 4400873582, 117, 4410310767, 4414505069, 4415553637, 4417650803, 84, 119, 101, 108, 112, 118];
    assert Tags(ps) == ts;
    ApartByTags(ps, ts);
  }

  /** `cmdParts` of `run`: `run`, the flags, then the service, the command and its
      arguments. */
  function RunParts(f: RunFlags, argv: seq<string>): (r: seq<string>)
    ensures |r| >= 1 + |argv| && r[0] == "run" && r[|r| - |argv|..] == argv
  {
    ["run"] + EmitAll(RunSlots, RunSettings(f)) + argv
  }

  /** Reads `run`'s parts back into its flags and positional arguments. */
  function DecodeRun(parts: seq<string>): Option<(RunFlags, seq<string>)>
  {
    if |parts| == 0 || parts[0] != "run" then None
    else
      var (ss, argv) := DecodeAll(RunSlots, parts[1..]);
      Some((RunFlagsOf(ss), argv))
  }

  lemma RunRoundTrip(f: RunFlags, argv: seq<string>)
    requires Positional(argv)
    ensures DecodeRun(RunParts(f, argv)) == Some((f, argv))
  {
    var parts := RunParts(f, argv);
    assert parts[1..] == EmitAll(RunSlots, RunSettings(f)) + argv;
    RunTable();
    DecodeEmit(RunSlots, RunSettings(f), argv);
  }

  /** `run` against the project's compose file. */
  function RunCommand(compose: Option<string>, f: RunFlags, argv: seq<string>): (r: Result<string, CommandError>)
    ensures r.Err? <==> compose.None? || compose.value == ""
    ensures r.Ok? && '"' !in compose.value ==>
      ComposeState.ParseComposeCommand(r.value) == Some((compose.value, Join(RunParts(f, argv), " ")))
  {
    Invocation(compose, RunParts(f, argv))
  }

  // ---------------------------------------------------------------- exec

  datatype ExecFlags = ExecFlags(
    detach: bool, privileged: bool, user: string, index: int, env: seq<string>,
    workdir: string, noTty: bool)

  /** The flags of `exec` in push order; here `-w` comes after the `-e` values. */
  const ExecSpellings: seq<string> := ["-d", "--privileged", "-u ", "--index=", "-T", "-e ", "-w "]

  const ExecKinds: seq<Kind> := [Switch, Switch, Valued, Valued, Switch, Repeated, Valued]

  const ExecSlots: seq<Slot> := Zip(ExecKinds, ExecSpellings)

  /** `${index}` when the index is truthy: `0` and unset push nothing. */
  function IndexText(index: int): (r: string)
    ensures r == "" <==> index == 0
  {
    if index == 0 then "" else IntToString(index)
  }

  /** The integer an `--index=` value stands for. */
  function IndexOfText(t: string): int
  {
    var p := ParseNumber(t);
    if t != "" && p.Some? && p.value.0.JNumber? && p.value.1 == "" then p.value.0.n else 0
  }

  lemma IndexTextReadsBack(index: int)
    ensures IndexOfText(IndexText(index)) == index
  {
    if index != 0 {
      ParseNumberOf(index, "");
      assert IntToString(index) + "" == IntToString(index);
    }
  }

  function ExecSettings(f: ExecFlags): (r: seq<Setting>)
    ensures AllFit(ExecSlots, r)
  {
    var r := [On(f.detach), On(f.privileged), Val(f.user), Val(IndexText(f.index)), On(f.noTty),
      Vals(f.env), Val(f.workdir)];
    assert Kinds(r) == ExecKinds;
    ZipFits(ExecKinds, ExecSpellings, r);
    r
  }

  function ExecFlagsOf(ss: seq<Setting>): ExecFlags
    requires AllFit(ExecSlots, ss)
  {
    ExecFlags(ss[0].on, ss[1].on, ss[2].text, IndexOfText(ss[3].text), ss[5].texts, ss[6].text, ss[4].on)
  }

  lemma ExecTable()
    ensures Table(ExecSlots)
  {
    var ps := ExecSpellings;
    assert forall i :: 0 <= i < |ps| ==> Shaped(ps[i]);
    var ts := [100, 4412407922, 117, 4405067886, 84, 101, 119];
    assert Tags(ps) == ts;
    ApartByTags(ps, ts);
  }

  /** `cmdParts` of `exec`: `exec`, the flags, then the service, the command and its
      arguments. */
  function ExecParts(f: ExecFlags, argv: seq<string>): (r: seq<string>)
    ensures |r| >= 1 + |argv| && r[0] == "exec" && r[|r| - |argv|..] == argv
    ensures f.index == 0 ==> forall k :: 0 <= k < |r| ==> !StartsWith(r[k], "--index=") || k >= |r| - |argv|
  {
    var e := EmitAll(ExecSlots, ExecSettings(f));
    var r := ["exec"] + e + argv;
    assert f.index == 0 ==> forall k :: 0 <= k < |e| ==> !StartsWith(e[k], "--index=") by {
      if f.index == 0 { NoIndexPart(f); }
    }
    assert forall k :: 1 <= k < 1 + |e| ==> r[k] == e[k - 1];
    assert !StartsWith("exec", "--index=");
    r
  }

  /** Without an index, no part of the flags is an `--index=` part. */
  lemma NoIndexPart(f: ExecFlags)
    requires f.index == 0
    ensures forall k :: 0 <= k < |EmitAll(ExecSlots, ExecSettings(f))| ==> !StartsWith(EmitAll(ExecSlots, ExecSettings(f))[k], "--index=")
  {
    var e := EmitAll(ExecSlots, ExecSettings(f));
    var ss := ExecSettings(f);
    assert Emit(ExecSlots[3], ss[3]) == [];
    ExecTable();
    assert Spellings(ExecSlots)[3] == "--index=";
    forall k | 0 <= k < |e| ensures !StartsWith(e[k], "--index=") {
      var j := PartSlot(ExecSlots, ss, k);
      TagOfPrefixed(e[k], Spelling(ExecSlots[j]));
      assert Spellings(ExecSlots)[j] == Spelling(ExecSlots[j]);
      NotPrefixed(e[k], "--index=");
    }
  }

  /** The slot an emitted part comes from. */
  lemma {:induction false} PartSlot(slots: seq<Slot>, ss: seq<Setting>, k: nat) returns (j: nat)
    requires AllFit(slots, ss) && k < |EmitAll(slots, ss)|
    ensures j < |slots| && StartsWith(EmitAll(slots, ss)[k], Spelling(slots[j]))
    ensures |Emit(slots[j], ss[j])| > 0
    decreases |slots|
  {
    var first := Emit(slots[0], ss[0]);
    var e := EmitAll(slots, ss);
    assert e == first + EmitAll(slots[1..], ss[1..]);
    if k < |first| {
      assert e[k] == first[k];
      j := 0;
    } else {
      assert e[k] == EmitAll(slots[1..], ss[1..])[k - |first|];
      j := PartSlot(slots[1..], ss[1..], k - |first|);
      j := j + 1;
    }
  }

  function DecodeExec(parts: seq<string>): Option<(ExecFlags, seq<string>)>
  {
    if |parts| == 0 || parts[0] != "exec" then None
    else
      var (ss, argv) := DecodeAll(ExecSlots, parts[1..]);
      Some((ExecFlagsOf(ss), argv))
  }

  lemma ExecRoundTrip(f: ExecFlags, argv: seq<string>)
    requires Positional(argv)
    ensures DecodeExec(ExecParts(f, argv)) == Some((f, argv))
  {
    var parts := ExecParts(f, argv);
    assert parts[1..] == EmitAll(ExecSlots, ExecSettings(f)) + argv;
    ExecTable();
    DecodeEmit(ExecSlots, ExecSettings(f), argv);
    IndexTextReadsBack(f.index);
  }

  /** `exec` against the project's compose file. */
  function ExecCommand(compose: Option<string>, f: ExecFlags, argv: seq<string>): (r: Result<string, CommandError>)
    ensures r.Err? <==> compose.None? || compose.value == ""
    ensures r.Ok? && '"' !in compose.value ==>
      ComposeState.ParseComposeCommand(r.value) == Some((compose.value, Join(ExecParts(f, argv), " ")))
  {
    Invocation(compose, ExecParts(f, argv))
  }

  // ---------------------------------------------------------------- logs

  datatype LogsFlags = LogsFlags(follow: bool, timestamps: bool, tail: string, noColor: bool)

  const LogsSpellings: seq<string> := ["-f", "-t", "--tail=", "--no-color"]

  const LogsKinds: seq<Kind> := [Switch, Switch, Valued, Switch]

  const LogsSlots: seq<Slot> := Zip(LogsKinds, LogsSpellings)

  function LogsSettings(f: LogsFlags): (r: seq<Setting>)
    ensures AllFit(LogsSlots, r)
  {
    var r := [On(f.follow), On(f.timestamps), Val(f.tail), On(f.noColor)];
    assert Kinds(r) == LogsKinds;
    ZipFits(LogsKinds, LogsSpellings, r);
    r
  }

  function LogsFlagsOf(ss: seq<Setting>): LogsFlags
    requires AllFit(LogsSlots, ss)
  {
    LogsFlags(ss[0].on, ss[1].on, ss[2].text, ss[3].on)
  }

  lemma LogsTable()
    ensures Table(LogsSlots)
  {
    var ps := LogsSpellings;
    assert forall i :: 0 <= i < |ps| ==> Shaped(ps[i]);
    var ts := [102, 116, 4416602209, 4410310767];
    assert Tags(ps) == ts;
    ApartByTags(ps, ts);
  }

  /** `cmdParts` of `logs`: `logs`, the flags, then the service names. */
  function LogsParts(f: LogsFlags, argv: seq<string>): (r: seq<string>)
    ensures |r| >= 1 + |argv| && r[0] == "logs" && r[|r| - |argv|..] == argv
  {
    ["logs"] + EmitAll(LogsSlots, LogsSettings(f)) + argv
  }

  function DecodeLogs(parts: seq<string>): Option<(LogsFlags, seq<string>)>
  {
    if |parts| == 0 || parts[0] != "logs" then None
    else
      var (ss, argv) := DecodeAll(LogsSlots, parts[1..]);
      Some((LogsFlagsOf(ss), argv))
  }

  lemma LogsRoundTrip(f: LogsFlags, argv: seq<string>)
    requires Positional(argv)
    ensures DecodeLogs(LogsParts(f, argv)) == Some((f, argv))
  {
    var parts := LogsParts(f, argv);
    assert parts[1..] == EmitAll(LogsSlots, LogsSettings(f)) + argv;
    LogsTable();
    DecodeEmit(LogsSlots, LogsSettings(f), argv);
  }

  /** `logs` against the project's compose file. */
  function LogsCommand(compose: Option<string>, f: LogsFlags, argv: seq<string>): (r: Result<string, CommandError>)
    ensures r.Err? <==> compose.None? || compose.value == ""
    ensures r.Ok? && '"' !in compose.value ==>
      ComposeState.ParseComposeCommand(r.value) == Some((compose.value, Join(LogsParts(f, argv), " ")))
  {
    Invocation(compose, LogsParts(f, argv))
  }
}
