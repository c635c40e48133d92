/**
 The state file the CLI keeps in the home directory between `up` and `down`, and the
 text of the `docker` commands built around it.

 The file holds the pretty-printed JSON of the state.  Older versions wrote only the
 compose path as plain text, so the reader falls back to that legacy layout whenever
 the content is not JSON with a truthy `composePath`.
 */
module ComposeState {

  import opened Wrappers
  import opened Strings
  import opened Objects
  import opened Json

  /** What `up` records: the compose file it started and the containers it created. */
  datatype State = State(composePath: string, containers: seq<string>)

  /** The JSON object the state is written as, properties in declaration order. */
  function StateJson(s: State): (r: Json)
    ensures WellFormed(r) && r.JObject?
    ensures Get(r.fields, "composePath") == Some(JString(s.composePath))
  {
    var ids := seq(|s.containers|, i requires 0 <= i < |s.containers| => JString(s.containers[i]));
    assert WellFormed(JArray(ids)) by {
      forall i | 0 <= i < |ids| ensures WellFormed(ids[i]) { assert ids[i].JString?; }
    }
    var fs := [("composePath", JString(s.composePath)), ("containers", JArray(ids))];
    assert fs[0] in fs && fs[1] in fs;
    assert DistinctKeys(fs) by { assert "composePath" != "containers" by { assert "composePath"[2] != "containers"[2]; } }
    assert Get(fs, "composePath") == Some(JString(s.composePath)) by { IndexOfKeyIs(fs, "composePath", 0); }
    JObject(fs)
  }

  /** The state a legacy file stands for: its trimmed text as the compose path, no containers. */
  function Legacy(raw: string): Json
  {
    StateJson(State(raw, []))
  }

  /** `parsed.composePath`, `undefined` when the value is not an object or lacks it. */
  function ComposePathOf(v: Json): Option<Json>
  {
    if v.JObject? then Get(v.fields, "composePath") else None
  }

  /** `getLastState`, given the file's content (`None` when it is missing or unreadable).
      The result is `None` for `null`; the JSON branch is a cast, so a value with a truthy
      `composePath` is returned as it was parsed, whatever else it holds. */
  function DecodeLastState(file: Option<string>): (r: Option<Json>)
    ensures file.None? ==> r.None?
    ensures file.Some? ==> (r.None? <==> AllSpaces(file.value))
    ensures r.Some? ==>
      var raw := Trim(file.value);
      if Parse(raw).Some? && TruthyOpt(ComposePathOf(Parse(raw).value))
      then r.value == Parse(raw).value
      else r.value == Legacy(raw)
    ensures r.Some? ==> TruthyOpt(ComposePathOf(r.value))
  {
    match file
    case None => None
    case Some(text) =>
      var raw := Trim(text);
      if raw == "" then None
      else
        var parsed := Parse(raw);
        if parsed.Some? && TruthyOpt(ComposePathOf(parsed.value)) then parsed
        else Some(Legacy(raw))
  }

  /** `writeCurrentState`: the JSON of the state, indented by two spaces.  It parses back to
      the state, and trimming it changes nothing. */
  function WriteCurrentState(s: State): (r: string)
    ensures Parse(r) == Some(StateJson(s))
    ensures Trim(r) == r
  {
    var r := Pretty(StateJson(s));
    PrettyRoundTrip(StateJson(s));
    PrintBounded(StateJson(s), "  ", "");
    TrimBounded(r);
    r
  }

  /** A state written with a compose path reads back as itself. */
  lemma WriteReadRoundTrip(s: State)
    requires s.composePath != ""
    ensures DecodeLastState(Some(WriteCurrentState(s))) == Some(StateJson(s))
  {
    var text := WriteCurrentState(s);
    PrintBounded(StateJson(s), "  ", "");
    TrimBounded(text);
    PrettyRoundTrip(StateJson(s));
    assert text[0] == '{';
  }

  /** A state written with an empty compose path does not survive: its whole text is taken
      for a legacy compose path. */
  lemma EmptyPathReadsAsLegacy(s: State)
    requires s.composePath == ""
    ensures DecodeLastState(Some(WriteCurrentState(s))) == Some(Legacy(WriteCurrentState(s)))
  {
    var text := WriteCurrentState(s);
    PrintBounded(StateJson(s), "  ", "");
    TrimBounded(text);
    PrettyRoundTrip(StateJson(s));
    assert text[0] == '{';
  }

  /** A legacy file, a bare compose path, reads as that path with no containers. */
  lemma LegacyPathReads(path: string)
    requires Bounded(path) && path != "" && Parse(path).None?
    ensures DecodeLastState(Some(path)) == Some(Legacy(path))
  {
    TrimBounded(path);
  }

  // ---------------------------------------------------------------- container ids

  /** `filter(Boolean)` on strings: the non-empty ones, in order. */
  function NonEmpty(xs: seq<string>): (r: seq<string>)
    ensures forall i :: 0 <= i < |r| ==> r[i] != "" && r[i] in xs
    ensures (forall i :: 0 <= i < |xs| ==> xs[i] != "") ==> r == xs
    ensures forall x :: x != "" ==> multiset(r)[x] == multiset(xs)[x]
  {
    if |xs| == 0 then []
    else
      var rest := NonEmpty(xs[1..]);
      assert multiset(xs) == multiset{xs[0]} + multiset(xs[1..]) by { assert xs == [xs[0]] + xs[1..]; }
      assert forall i :: 0 <= i < |rest| ==> rest[i] in xs by {
        forall i | 0 <= i < |rest| ensures rest[i] in xs {
          assert rest[i] in xs[1..];
        }
      }
      if xs[0] == "" then rest
      else
        assert xs[1..] == xs[1..] && [xs[0]] + xs[1..] == xs;
        [xs[0]] + rest
  }

  /** `getComposeContainerIds`, given the output of `docker compose ps -q` (`None` when
      the command fails): one id per non-empty line, in output order. */
  function ContainerIds(stdout: Option<string>): (r: seq<string>)
    ensures stdout.None? ==> r == []
    ensures stdout.Some? ==> r == NonEmpty(Split(Trim(stdout.value), '\n'))
    ensures forall i :: 0 <= i < |r| ==> r[i] != "" && '\n' !in r[i]
    ensures stdout.Some? ==> forall i :: 0 <= i < |r| ==> r[i] in Split(Trim(stdout.value), '\n')
    ensures stdout.Some? ==> forall x :: x != "" ==> multiset(r)[x] == multiset(Split(Trim(stdout.value), '\n'))[x]
    ensures stdout.Some? ==> forall i :: 0 <= i < |r| ==> forall c :: c in r[i] ==> c in stdout.value
  {
    match stdout
    case None => []
    case Some(out) =>
      var lines := Split(Trim(out), '\n');
      var r := NonEmpty(lines);
      assert forall i :: 0 <= i < |r| ==> r[i] in lines;
      assert forall i :: 0 <= i < |r| ==> forall c :: c in r[i] ==> c in Trim(out) by {
        forall i, c | 0 <= i < |r| && c in r[i] ensures c in Trim(out) {
          var j :| 0 <= j < |lines| && lines[j] == r[i];
          JoinHas(lines, j, c);
        }
      }
      r
  }

  /** Filtering works piece by piece: the non-empty strings of two consecutive parts are
      those of the first part, then those of the second, each part keeping its order. */
  lemma {:induction false} NonEmptyAppend(a: seq<string>, b: seq<string>)
    ensures NonEmpty(a + b) == NonEmpty(a) + NonEmpty(b)
    decreases |a|
  {
    if |a| == 0 {
      assert a + b == b;
    } else {
      assert (a + b)[0] == a[0] && (a + b)[1..] == a[1..] + b;
      NonEmptyAppend(a[1..], b);
    }
  }

  /** One string is kept exactly when it is not empty. */
  lemma NonEmptyOne(x: string)
    ensures NonEmpty([x]) == if x == "" then [] else [x]
  {
    assert [x][1..] == [];
  }

  /** A character of one piece is a character of their `\n`-join. */
  lemma {:induction false} JoinHas(xs: seq<string>, j: nat, c: char)
    requires j < |xs| && c in xs[j]
    ensures c in Join(xs, "\n")
    decreases |xs|
  {
    if |xs| > 1 {
      if j > 0 {
        JoinHas(xs[1..], j - 1, c);
      }
    }
  }

  /** The ids `docker` prints, one per line with a final line break, are read back exactly. */
  lemma IdsReadBack(ids: seq<string>)
    requires forall i :: 0 <= i < |ids| ==> ids[i] != "" && Bounded(ids[i]) && '\n' !in ids[i]
    ensures ContainerIds(Some(Join(ids, "\n") + "\n")) == ids
  {
    var out := Join(ids, "\n") + "\n";
    IdsOf(out);
    if |ids| == 0 {
      NoIds();
    } else {
      LinesOfIds(ids);
    }
  }

  lemma NoIds()
    ensures ContainerIds(Some("\n")) == []
  {
    assert Trim("\n") == "" by { assert AllSpaces("\n"); }
    assert Split("", '\n') == [""];
    assert NonEmpty([""]) == NonEmpty([""][1..]);
  }

  lemma IdsOf(out: string)
    ensures ContainerIds(Some(out)) == NonEmpty(Split(Trim(out), '\n'))
  {
  }

  lemma LinesOfIds(ids: seq<string>)
    requires |ids| >= 1
    requires forall i :: 0 <= i < |ids| ==> ids[i] != "" && Bounded(ids[i]) && '\n' !in ids[i]
    ensures Split(Trim(Join(ids, "\n") + "\n"), '\n') == ids
  {
    var body := Join(ids, "\n");
    assert Trim(body + "\n") == body by { JoinTrim(ids); }
    SplitJoin(ids, '\n');
  }

  lemma JoinTrim(ids: seq<string>)
    requires |ids| >= 1
    requires forall i :: 0 <= i < |ids| ==> ids[i] != "" && Bounded(ids[i])
    ensures Trim(Join(ids, "\n") + "\n") == Join(ids, "\n")
  {
    var body := Join(ids, "\n");
    JoinBounded(ids);
    assert AllSpaces("\n");
    TrimAround("", body, "\n");
    assert "" + body + "\n" == body + "\n";
  }

  /** Joining bounded, non-empty pieces gives a bounded text. */
  lemma {:induction false} JoinBounded(xs: seq<string>)
    requires |xs| >= 1
    requires forall i :: 0 <= i < |xs| ==> xs[i] != "" && Bounded(xs[i])
    ensures Bounded(Join(xs, "\n")) && Join(xs, "\n") != ""
    decreases |xs|
  {
    if |xs| > 1 {
      JoinBounded(xs[1..]);
      var t := Join(xs[1..], "\n");
      assert Join(xs, "\n") == xs[0] + "\n" + t;
      assert (xs[0] + "\n" + t)[0] == xs[0][0];
      assert (xs[0] + "\n" + t)[|xs[0] + "\n" + t| - 1] == t[|t| - 1];
    }
  }

  // ---------------------------------------------------------------- commands

  /** `forceRemoveContainers`: no command for an empty list, otherwise one `docker rm -f`
      naming every container. */
  function RemoveCommand(ids: seq<string>): (r: Option<string>)
    ensures r.None? <==> |ids| == 0
  {
    if |ids| == 0 then None else Some("docker rm -f " + Join(ids, " "))
  }

  /** The containers named by a removal command are the ones it was built from. */
  lemma RemoveCommandNames(ids: seq<string>)
    requires |ids| >= 1 && forall i :: 0 <= i < |ids| ==> ' ' !in ids[i]
    ensures
      var cmd := RemoveCommand(ids).value;
      StartsWith(cmd, "docker rm -f ") && Split(cmd[|"docker rm -f "|..], ' ') == ids
  {
    var cmd := RemoveCommand(ids).value;
    assert cmd[|"docker rm -f "|..] == Join(ids, [' ']);
    SplitJoin(ids, ' ');
  }

  const ComposePrefix: string := "docker compose -f \""

  /** `createDockerComposeCommand(compose)({cmd})`: the compose file quoted after `-f`.  The
      command starts with the prefix, and for a file without a double quote the first quote
      after the prefix is the one that closes the file name. */
  function ComposeCommand(compose: string, cmd: string): (r: string)
    ensures StartsWith(r, ComposePrefix)
    ensures '"' !in compose ==> IndexOf(r[|ComposePrefix|..], '"') == Some(|compose|)
  {
    var r := ComposePrefix + compose + "\" " + cmd;
    assert r[..|ComposePrefix|] == ComposePrefix;
    assert r[|ComposePrefix|..] == compose + ['"'] + (" " + cmd);
    if '"' !in compose then IndexOfPrefix(compose, '"', " " + cmd); r else r
  }

  /** Reads a compose command back: the file between the quotes and the command after them. */
  function ParseComposeCommand(s: string): (r: Option<(string, string)>)
    ensures r.Some? ==> '"' !in r.value.0
  {
    if !StartsWith(s, ComposePrefix) then None
    else
      var rest := s[|ComposePrefix|..];
      match IndexOf(rest, '"')
      case None => None
      case Some(q) =>
        if q + 1 < |rest| && rest[q + 1] == ' ' then Some((rest[..q], rest[q + 2..])) else None
  }

  /** A compose file without a double quote and the command are recovered from the text. */
  lemma ComposeCommandParts(compose: string, cmd: string)
    requires '"' !in compose
    ensures ParseComposeCommand(ComposeCommand(compose, cmd)) == Some((compose, cmd))
  {
    var s := ComposeCommand(compose, cmd);
    assert s[..|ComposePrefix|] == ComposePrefix;
    var rest := s[|ComposePrefix|..];
    assert rest == compose + ['"'] + (" " + cmd);
    IndexOfPrefix(compose, '"', " " + cmd);
    assert rest[..|compose|] == compose;
    assert rest[|compose| + 2..] == cmd;
  }
}
