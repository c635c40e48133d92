/**
 The hidden `switch-env` command: it asks which services to work on and which environment
 to use, then writes the answers as the project's current configuration.

 The services are offered sorted by lower-cased name.  Services of category `always` are
 not offered; they are appended to whatever is picked.  A service is pre-checked when the
 current configuration already lists it.  With exactly one environment nothing is asked.
 The answers of the two prompts are parameters of the model.
 */
module SwitchEnv {

  import opened Wrappers
  import opened Strings
  import opened Objects
  import opened Json
  import Compile

  /** A service as offered: its name (which is also the value picked) and its category. */
  datatype Choice = Choice(name: string, category: string)

  /** An environment of the project and its optional description. */
  datatype EnvEntry = EnvEntry(name: string, description: Option<Json>)

  // ---------------------------------------------------------------- sorting

  /** The order names are compared in: total and transitive, but not necessarily
      antisymmetric, since different names may compare as equal. */
  ghost predicate TotalPreorder(le: (string, string) -> bool)
  {
    && (forall a, b :: le(a, b) || le(b, a))
    && (forall a, b, c :: le(a, b) && le(b, c) ==> le(a, c))
  }

  /** What choices are sorted on. */
  function SortKey(c: Choice): string
  {
    Lower(c.name)
  }

  predicate SortedBy(le: (string, string) -> bool, cs: seq<Choice>)
  {
    forall i, j :: 0 <= i < j < |cs| ==> le(SortKey(cs[i]), SortKey(cs[j]))
  }

  /** Puts `x` before the first choice it does not sort after. */
  function Insert(le: (string, string) -> bool, x: Choice, cs: seq<Choice>): (r: seq<Choice>)
    requires TotalPreorder(le) && SortedBy(le, cs)
    ensures multiset(r) == multiset(cs) + multiset{x}
    ensures SortedBy(le, r)
    decreases |cs|
  {
    if |cs| == 0 || le(SortKey(x), SortKey(cs[0])) then
      assert SortedBy(le, [x] + cs) by {
        if |cs| > 0 { BelowFirst(le, x, cs); }
        SortedCons(le, x, cs);
      }
      [x] + cs
    else
      var rest := Insert(le, x, cs[1..]);
      assert cs == [cs[0]] + cs[1..];
      assert SortedBy(le, [cs[0]] + rest) by {
        AboveInserted(le, x, cs, rest);
        SortedCons(le, cs[0], rest);
      }
      [cs[0]] + rest
  }

  /** A choice that sorts before every choice of a sorted sequence can go in front of it. */
  lemma SortedCons(le: (string, string) -> bool, x: Choice, cs: seq<Choice>)
    requires SortedBy(le, cs) && forall k :: 0 <= k < |cs| ==> le(SortKey(x), SortKey(cs[k]))
    ensures SortedBy(le, [x] + cs)
  {
    forall i, j | 0 <= i < j < |[x] + cs| ensures le(SortKey(([x] + cs)[i]), SortKey(([x] + cs)[j])) {
      assert ([x] + cs)[j] == cs[j - 1];
      if i > 0 { assert ([x] + cs)[i] == cs[i - 1]; }
    }
  }

  /** Sorting before the first of a sorted sequence is sorting before all of it. */
  lemma BelowFirst(le: (string, string) -> bool, x: Choice, cs: seq<Choice>)
    requires TotalPreorder(le) && SortedBy(le, cs) && |cs| > 0 && le(SortKey(x), SortKey(cs[0]))
    ensures forall k :: 0 <= k < |cs| ==> le(SortKey(x), SortKey(cs[k]))
  {
    forall k | 0 < k < |cs| ensures le(SortKey(x), SortKey(cs[k])) {
      assert le(SortKey(cs[0]), SortKey(cs[k]));
    }
  }

  /** The head of a sorted sequence sorts before everything `x` was inserted into its tail
      with, when `x` does not sort before the head. */
  lemma AboveInserted(le: (string, string) -> bool, x: Choice, cs: seq<Choice>, rest: seq<Choice>)
    requires TotalPreorder(le) && SortedBy(le, cs) && |cs| > 0 && !le(SortKey(x), SortKey(cs[0]))
    requires multiset(rest) == multiset(cs[1..]) + multiset{x}
    ensures forall k :: 0 <= k < |rest| ==> le(SortKey(cs[0]), SortKey(rest[k]))
  {
    forall k | 0 <= k < |rest| ensures le(SortKey(cs[0]), SortKey(rest[k])) {
      assert rest[k] in multiset(rest);
      if rest[k] != x {
        assert rest[k] in multiset(cs[1..]);
        var m :| 0 <= m < |cs[1..]| && cs[1..][m] == rest[k];
        assert cs[m + 1] == rest[k];
      }
    }
  }

  /** `sort` by lower-cased name: the same choices, in order.  Each choice is inserted in
      front of the later ones it ties with, so ties keep their input order. */
  function Sort(le: (string, string) -> bool, cs: seq<Choice>): (r: seq<Choice>)
    requires TotalPreorder(le)
    ensures multiset(r) == multiset(cs)
    ensures SortedBy(le, r)
    decreases |cs|
  {
    if |cs| == 0 then []
    else
      assert cs == [cs[0]] + cs[1..];
      Insert(le, cs[0], Sort(le, cs[1..]))
  }

  // ---------------------------------------------------------------- partition

  /** `a` is `b` with some elements dropped, the rest in their order. */
  predicate Subseq<T(==)>(a: seq<T>, b: seq<T>)
    decreases |b|
  {
    |a| == 0 || (|b| > 0 && if a[0] == b[0] then Subseq(a[1..], b[1..]) else Subseq(a, b[1..]))
  }

  predicate IsAlways(c: Choice)
  {
    c.category == "always"
  }

  /** `filter` on the category: the choices that are (`always`) or are not always-on. */
  function Keep(cs: seq<Choice>, always: bool): (r: seq<Choice>)
    ensures forall i :: 0 <= i < |r| ==> IsAlways(r[i]) == always
    ensures forall c :: multiset(r)[c] == if IsAlways(c) == always then multiset(cs)[c] else 0
    ensures Subseq(r, cs)
    decreases |cs|
  {
    if |cs| == 0 then []
    else
      var rest := Keep(cs[1..], always);
      assert cs == [cs[0]] + cs[1..];
      if IsAlways(cs[0]) == always then
        assert ([cs[0]] + rest)[1..] == rest;
        [cs[0]] + rest
      else
        rest
  }

  /** The two filters split the choices: every choice lands in exactly one of them. */
  lemma {:induction false} PartitionIsWhole(cs: seq<Choice>)
    ensures multiset(Keep(cs, false)) + multiset(Keep(cs, true)) == multiset(cs)
  {
    var a := Keep(cs, false);
    var b := Keep(cs, true);
    forall c ensures (multiset(a) + multiset(b))[c] == multiset(cs)[c] {
      assert multiset(a)[c] == if IsAlways(c) then 0 else multiset(cs)[c];
      assert multiset(b)[c] == if IsAlways(c) then multiset(cs)[c] else 0;
    }
  }

  /** What is kept of a sorted sequence is sorted. */
  lemma {:induction false} SubseqSorted(le: (string, string) -> bool, a: seq<Choice>, b: seq<Choice>)
    requires Subseq(a, b) && SortedBy(le, b)
    ensures SortedBy(le, a)
    decreases |b|
  {
    if |a| > 0 {
      assert SortedBy(le, b[1..]) by {
        forall i, j | 0 <= i < j < |b[1..]| ensures le(SortKey(b[1..][i]), SortKey(b[1..][j])) {
          assert b[1..][i] == b[i + 1] && b[1..][j] == b[j + 1];
        }
      }
      if a[0] == b[0] {
        SubseqSorted(le, a[1..], b[1..]);
        forall k | 1 <= k < |a| ensures le(SortKey(a[0]), SortKey(a[k])) {
          SubseqHas(a[1..], b[1..], k - 1);
          var m :| 0 <= m < |b[1..]| && b[1..][m] == a[k];
          assert b[m + 1] == a[k];
        }
        assert SortedBy(le, a) by {
          forall i, j | 0 <= i < j < |a| ensures le(SortKey(a[i]), SortKey(a[j])) {
            if i > 0 { assert a[1..][i - 1] == a[i] && a[1..][j - 1] == a[j]; }
          }
        }
      } else {
        SubseqSorted(le, a, b[1..]);
      }
    }
  }

  /** Every element of a subsequence is an element of the whole. */
  lemma {:induction false} SubseqHas<T>(a: seq<T>, b: seq<T>, k: nat)
    requires Subseq(a, b) && k < |a|
    ensures a[k] in b
    decreases |b|
  {
    if a[0] == b[0] {
      if k > 0 {
        SubseqHas(a[1..], b[1..], k - 1);
        assert a[1..][k - 1] == a[k];
      }
    } else {
      SubseqHas(a, b[1..], k);
    }
  }

  function Names(cs: seq<Choice>): (r: seq<string>)
    ensures |r| == |cs| && forall i :: 0 <= i < |cs| ==> r[i] == cs[i].name
  {
    seq(|cs|, i requires 0 <= i < |cs| => cs[i].name)
  }

  /** The sorted choices offered in the prompt and the always-on services, also sorted. */
  datatype Partition = Partition(choices: seq<Choice>, always: seq<Choice>)

  function Partitioned(le: (string, string) -> bool, services: seq<Choice>): (r: Partition)
    requires TotalPreorder(le)
    ensures SortedBy(le, r.choices)
    ensures forall i :: 0 <= i < |r.choices| ==> !IsAlways(r.choices[i])
    ensures forall c :: !IsAlways(c) ==> multiset(r.choices)[c] == multiset(services)[c]
    ensures SortedBy(le, r.always)
    ensures forall i :: 0 <= i < |r.always| ==> IsAlways(r.always[i])
    ensures forall c :: IsAlways(c) ==> multiset(r.always)[c] == multiset(services)[c]
    ensures |r.choices| + |r.always| == |services|
  {
    var sorted := Sort(le, services);
    var choices := Keep(sorted, false);
    var always := Keep(sorted, true);
    SubseqSorted(le, choices, sorted);
    SubseqSorted(le, always, sorted);
    PartitionIsWhole(sorted);
    assert |multiset(choices)| + |multiset(always)| == |multiset(services)|;
    Partition(choices, always)
  }

  // ---------------------------------------------------------------- pre-checked services

  /** The texts among JSON values; `includes` never matches anything else against a name. */
  function Texts(vs: seq<Json>): (r: seq<string>)
    ensures forall x :: x in r <==> JString(x) in vs
    decreases |vs|
  {
    if |vs| == 0 then []
    else
      assert vs == [vs[0]] + vs[1..];
      (if vs[0].JString? then [vs[0].s] else []) + Texts(vs[1..])
  }

  /** `filter(c => names.includes(c))`. */
  function Among(xs: seq<string>, names: seq<string>): (r: seq<string>)
    ensures forall x :: multiset(r)[x] == if x in names then multiset(xs)[x] else 0
    ensures Subseq(r, xs)
    decreases |xs|
  {
    if |xs| == 0 then []
    else
      var rest := Among(xs[1..], names);
      assert xs == [xs[0]] + xs[1..];
      if xs[0] in names then
        assert ([xs[0]] + rest)[1..] == rest;
        [xs[0]] + rest
      else
        assert |rest| > 0 ==> rest[0] in names by {
          if |rest| > 0 { assert rest[0] in multiset(rest); }
        }
        rest
  }

  lemma {:induction false} AmongAppend(a: seq<string>, b: seq<string>, names: seq<string>)
    ensures Among(a + b, names) == Among(a, names) + Among(b, names)
    decreases |a|
  {
    if |a| == 0 {
      assert a + b == b;
    } else {
      assert (a + b)[1..] == a[1..] + b;
      AmongAppend(a[1..], b, names);
    }
  }

  lemma {:induction false} AmongAll(xs: seq<string>, names: seq<string>)
    requires forall i :: 0 <= i < |xs| ==> xs[i] in names
    ensures Among(xs, names) == xs
    decreases |xs|
  {
    if |xs| > 0 {
      AmongAll(xs[1..], names);
    }
  }

  lemma {:induction false} AmongNone(xs: seq<string>, names: seq<string>)
    requires forall i :: 0 <= i < |xs| ==> xs[i] !in names
    ensures Among(xs, names) == []
    decreases |xs|
  {
    if |xs| > 0 {
      AmongNone(xs[1..], names);
    }
  }

  datatype SwitchError = NotAnArray

  /** `get(project, 'current.services', [])` filtered down to the offered names: no list
      gives none, and a value other than a list makes `filter` throw. */
  function Initial(project: Json, names: seq<string>): (r: Result<seq<string>, SwitchError>)
    ensures r.Err? <==> Compile.GetPath(project, ["current", "services"]).Some? && !Compile.GetPath(project, ["current", "services"]).value.JArray?
    ensures r.Ok? ==> forall x :: x in r.value <==> x in names && Current(project, x)
  {
    match Compile.GetPath(project, ["current", "services"])
    case None => Ok([])
    case Some(v) =>
      if v.JArray? then
        var r := Among(Texts(v.items), names);
        assert forall x :: x in r <==> x in names && x in Texts(v.items) by {
          forall x ensures x in r <==> x in names && x in Texts(v.items) {
            assert x in r <==> multiset(r)[x] > 0;
            assert x in Texts(v.items) <==> multiset(Texts(v.items))[x] > 0;
          }
        }
        Ok(r)
      else Err(NotAnArray)
  }

  /** The current configuration lists the service. */
  predicate Current(project: Json, name: string)
  {
    var v := Compile.GetPath(project, ["current", "services"]);
    v.Some? && v.value.JArray? && JString(name) in v.value.items
  }

  /** One entry of the services prompt. */
  datatype Checkbox = Checkbox(name: string, value: string, checked: bool)

  function Checkboxes(choices: seq<Choice>, initial: seq<string>): (r: seq<Checkbox>)
    ensures |r| == |choices|
    ensures forall i :: 0 <= i < |r| ==> r[i].value == choices[i].name && (r[i].checked <==> choices[i].name in initial)
  {
    seq(|choices|, i requires 0 <= i < |choices| => Checkbox(choices[i].name, choices[i].name, choices[i].name in initial))
  }

  /** An offered service is pre-checked exactly when the current configuration lists it. */
  lemma CheckedIffCurrent(project: Json, choices: seq<Choice>, i: nat)
    requires Initial(project, Names(choices)).Ok? && i < |choices|
    ensures Checkboxes(choices, Initial(project, Names(choices)).value)[i].checked <==> Current(project, choices[i].name)
  {
    assert choices[i].name == Names(choices)[i];
  }

  // ---------------------------------------------------------------- environment

  const Separator: string := " - "

  /** The label of an environment: its name, then ` - ` and the description when the
      description is truthy. */
  function Label(e: EnvEntry): (r: string)
  {
    if TruthyOpt(e.description) then e.name + Separator + TemplateText(e.description.value) else e.name
  }

  /** `text` holds ` - ` at `j`. */
  predicate SeparatorAt(text: string, j: nat)
  {
    j + 3 <= |text| && text[j..j + 3] == Separator
  }

  /** The first place from `from` on where `text` holds ` - `. */
  function FindSeparator(text: string, from: nat): (r: Option<nat>)
    ensures r.Some? ==> from <= r.value && SeparatorAt(text, r.value)
    ensures r.Some? ==> forall j :: from <= j < r.value ==> !SeparatorAt(text, j)
    ensures r.None? ==> forall j :: from <= j ==> !SeparatorAt(text, j)
    decreases |text| - from
  {
    if from + 3 > |text| then None
    else if SeparatorAt(text, from) then Some(from)
    else FindSeparator(text, from + 1)
  }

  /** Reads a label back: the text before the first ` - ` and the text after it. */
  function Unlabel(text: string): (r: (string, string))
  {
    match FindSeparator(text, 0)
    case None => (text, "")
    case Some(k) => (text[..k], text[k + 3..])
  }

  /** The name and the description of an environment are recovered from its label when
      ` - ` does not occur in the name followed by a space, that is, when the name neither
      holds ` - ` nor ends in ` -`. */
  lemma LabelReadsBack(e: EnvEntry)
    requires forall j :: 0 <= j < |e.name| ==> !SeparatorAt(e.name + " ", j)
    ensures Unlabel(Label(e)) == (e.name, if TruthyOpt(e.description) then TemplateText(e.description.value) else "")
  {
    var text := Label(e);
    var n := |e.name|;
    if TruthyOpt(e.description) {
      var d := TemplateText(e.description.value);
      assert text == e.name + Separator + d;
      assert SeparatorAt(text, n) by { assert text[n..n + 3] == Separator; }
      forall j | 0 <= j < n ensures !SeparatorAt(text, j) {
        if j + 3 <= n + 1 {
          assert !SeparatorAt(e.name + " ", j);
          assert text[j..j + 3] == (e.name + " ")[j..j + 3];
        } else if j + 3 <= |text| {
          assert text[j..j + 3][1] == text[j + 1] == ' ' && Separator[1] == '-';
        }
      }
      var r := FindSeparator(text, 0);
      assert r.Some?;
      assert !(r.value < n);
      assert !(r.value > n);
      assert text[..n] == e.name;
      assert text[n + 3..] == d;
    } else {
      forall j | 0 <= j ensures !SeparatorAt(text, j) {
        if j + 3 <= n {
          assert !SeparatorAt(e.name + " ", j);
          assert text == e.name && text[j..j + 3] == (e.name + " ")[j..j + 3];
        }
      }
      assert FindSeparator(text, 0).None?;
    }
  }

  /** The environment step: picked without asking when there is exactly one, otherwise a
      list of labelled choices whose default is the current environment (`null` if none). */
  datatype EnvStep = Auto(name: string) | Ask(options: seq<(string, string)>, default: Json)

  function EnvironmentStep(project: Json, envs: seq<EnvEntry>): (r: EnvStep)
    ensures r.Auto? <==> |envs| == 1
    ensures r.Auto? ==> r.name == envs[0].name
    ensures r.Ask? ==> |r.options| == |envs| && forall i :: 0 <= i < |envs| ==> r.options[i] == (Label(envs[i]), envs[i].name)
    ensures r.Ask? && Compile.GetPath(project, ["current", "environment"]).Some? ==>
      r.default == Compile.GetPath(project, ["current", "environment"]).value
    ensures r.Ask? && Compile.GetPath(project, ["current", "environment"]).None? ==> r.default == JNull
  {
    if |envs| == 1 then Auto(envs[0].name)
    else
      var d := Compile.GetPath(project, ["current", "environment"]);
      Ask(seq(|envs|, i requires 0 <= i < |envs| => (Label(envs[i]), envs[i].name)), if d.Some? then d.value else JNull)
  }

  // ---------------------------------------------------------------- the command

  /** The current configuration written: the services, the environment and an empty
      docker host, in that order. */
  function CurrentConfig(services: seq<string>, environment: string): (r: Json)
    ensures WellFormed(r) && r.JObject?
    ensures Get(r.fields, "services") == Some(JArray(seq(|services|, i requires 0 <= i < |services| => JString(services[i]))))
    ensures Get(r.fields, "environment") == Some(JString(environment))
    ensures Get(r.fields, "dockerhost") == Some(JString(""))
  {
    var items := seq(|services|, i requires 0 <= i < |services| => JString(services[i]));
    assert WellFormed(JArray(items)) by {
      forall i | 0 <= i < |items| ensures WellFormed(items[i]) { assert items[i].JString?; }
    }
    var fs := [("services", JArray(items)), ("environment", JString(environment)), ("dockerhost", JString(""))];
    assert fs[0] in fs && fs[1] in fs && fs[2] in fs;
    assert DistinctKeys(fs) by {
      assert "services"[0] != "environment"[0] && "services"[0] != "dockerhost"[0] && "environment"[0] != "dockerhost"[0];
    }
    assert Get(fs, "services") == Some(JArray(items)) by { IndexOfKeyIs(fs, "services", 0); }
    assert Get(fs, "environment") == Some(JString(environment)) by { IndexOfKeyIs(fs, "environment", 1); }
    assert Get(fs, "dockerhost") == Some(JString("")) by { IndexOfKeyIs(fs, "dockerhost", 2); }
    JObject(fs)
  }

  /** What one run shows and writes. */
  datatype Switched = Switched(prompt: seq<Checkbox>, env: EnvStep, written: Json)

  /** `switch-env`, given the project, its services and environments, the services picked
      and the environment answered. */
  function Run(le: (string, string) -> bool, project: Json, services: seq<Choice>, envs: seq<EnvEntry>,
               selected: seq<string>, answer: string): (r: Result<Switched, SwitchError>)
    requires TotalPreorder(le)
    ensures r.Err? <==> Initial(project, Names(Partitioned(le, services).choices)).Err?
    ensures r.Ok? ==>
      var p := Partitioned(le, services);
      && r.value.prompt == Checkboxes(p.choices, Initial(project, Names(p.choices)).value)
      && r.value.env == EnvironmentStep(project, envs)
      && r.value.written == CurrentConfig(selected + Names(p.always), if |envs| == 1 then envs[0].name else answer)
  {
    var p := Partitioned(le, services);
    match Initial(project, Names(p.choices))
    case Err(e) => Err(e)
    case Ok(initial) =>
      var step := EnvironmentStep(project, envs);
      var environment := if step.Auto? then step.name else answer;
      Ok(Switched(Checkboxes(p.choices, initial), step, CurrentConfig(selected + Names(p.always), environment)))
  }

  /** The project as it is loaded after a run: the written configuration becomes `current`. */
  function WithCurrent(project: Json, current: Json): Json
  {
    if project.JObject? then JObject(Put(project.fields, "current", current)) else JObject([("current", current)])
  }

  /** Running again after a switch pre-checks exactly the services picked, when they were
      all offered and no always-on service shares a name with an offered one. */
  lemma ReselectRoundTrip(le: (string, string) -> bool, project: Json, services: seq<Choice>, envs: seq<EnvEntry>,
                          selected: seq<string>, answer: string)
    requires TotalPreorder(le) && Run(le, project, services, envs, selected, answer).Ok?
    requires forall i :: 0 <= i < |selected| ==> selected[i] in Names(Partitioned(le, services).choices)
    requires forall i :: 0 <= i < |Partitioned(le, services).always| ==> Partitioned(le, services).always[i].name !in Names(Partitioned(le, services).choices)
    ensures
      var next := WithCurrent(project, Run(le, project, services, envs, selected, answer).value.written);
      Initial(next, Names(Partitioned(le, services).choices)) == Ok(selected)
  {
    var p := Partitioned(le, services);
    var names := Names(p.choices);
    var listed := selected + Names(p.always);
    var written := Run(le, project, services, envs, selected, answer).value.written;
    var items := seq(|listed|, i requires 0 <= i < |listed| => JString(listed[i]));
    var next := WithCurrent(project, written);
    assert Compile.GetPath(next, ["current", "services"]) == Some(JArray(items)) by {
      CurrentRead(project, written);
    }
    assert Texts(items) == listed by { TextsOfStrings(listed); }
    AmongAppend(selected, Names(p.always), names);
    AmongAll(selected, names);
    AmongNone(Names(p.always), names);
    assert selected + [] == selected;
  }

  /** After a switch, the next run's environment prompt defaults to the environment chosen. */
  lemma DefaultIsChosen(project: Json, services: seq<string>, environment: string, envs: seq<EnvEntry>)
    requires |envs| != 1
    ensures EnvironmentStep(WithCurrent(project, CurrentConfig(services, environment)), envs).default
      == JString(environment)
  {
    var written := CurrentConfig(services, environment);
    CurrentEnvironmentRead(project, written);
  }

  lemma CurrentEnvironmentRead(project: Json, written: Json)
    requires written.JObject?
    ensures Compile.GetPath(WithCurrent(project, written), ["current", "environment"]) == Get(written.fields, "environment")
  {
    var next := WithCurrent(project, written);
    if !project.JObject? {
      IndexOfKeyIs([("current", written)], "current", 0);
    }
    assert Get(next.fields, "current") == Some(written);
    assert ["current", "environment"][1..] == ["environment"];
    assert ["environment"][1..] == [];
  }

  lemma CurrentRead(project: Json, written: Json)
    requires written.JObject?
    ensures Compile.GetPath(WithCurrent(project, written), ["current", "services"]) == Get(written.fields, "services")
  {
    var next := WithCurrent(project, written);
    if !project.JObject? {
      IndexOfKeyIs([("current", written)], "current", 0);
    }
    assert Get(next.fields, "current") == Some(written);
    assert ["current", "services"][1..] == ["services"];
    assert ["services"][1..] == [];
  }

  lemma {:induction false} TextsOfStrings(xs: seq<string>)
    ensures Texts(seq(|xs|, i requires 0 <= i < |xs| => JString(xs[i]))) == xs
    decreases |xs|
  {
    var items := seq(|xs|, i requires 0 <= i < |xs| => JString(xs[i]));
    if |xs| > 0 {
      assert items[1..] == seq(|xs[1..]|, i requires 0 <= i < |xs[1..]| => JString(xs[1..][i]));
      TextsOfStrings(xs[1..]);
      assert [xs[0]] + xs[1..] == xs;
    }
  }
}
