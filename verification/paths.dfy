/**
 The POSIX flavour of Node's `path` functions that the custom-command dispatcher uses:
 `isAbsolute`, `resolve` against an absolute working directory, `join` onto a resolved
 directory, and `extname`.
 */
module Paths {

  import opened Strings

  predicate IsAbsolute(p: string)
  {
    |p| > 0 && p[0] == '/'
  }

  /** A segment that survives normalization: not empty, not `.` or `..`, no slash. */
  predicate PlainSegment(s: string)
  {
    s != "" && s != "." && s != ".." && '/' !in s
  }

  predicate PlainSegments(segs: seq<string>)
  {
    forall i :: 0 <= i < |segs| ==> PlainSegment(segs[i])
  }

  /** Walks the segments of a path from the root: empty segments and `.` are skipped,
      `..` leaves the last directory (and stays at the root), anything else enters it. */
  function Walk(stack: seq<string>, parts: seq<string>): (r: seq<string>)
    requires PlainSegments(stack)
    requires forall i :: 0 <= i < |parts| ==> '/' !in parts[i]
    ensures PlainSegments(r)
    decreases |parts|
  {
    if |parts| == 0 then stack
    else
      var p := parts[0];
      var next :=
        if p == "" || p == "." then stack
        else if p == ".." then (if |stack| == 0 then stack else stack[..|stack| - 1])
        else stack + [p];
      Walk(next, parts[1..])
  }

  /** The text of an absolute path made of the given segments. */
  function FromSegments(segs: seq<string>): string
  {
    "/" + Join(segs, "/")
  }

  /** The absolute, normalized form of `p` read from the root, without a trailing slash:
      what `path.resolve` returns. */
  function Normalize(p: string): (r: string)
    ensures IsAbsolute(r)
  {
    FromSegments(Walk([], Split(p, '/')))
  }

  /** A path is canonical when it is the text of plain segments. */
  ghost predicate Canonical(p: string)
  {
    exists segs :: PlainSegments(segs) && p == FromSegments(segs)
  }

  /** `path.resolve(cwd, h)` for an absolute `cwd`. */
  function Resolve(cwd: string, h: string): (r: string)
    ensures Canonical(r)
  {
    var r := if IsAbsolute(h) then Normalize(h) else Normalize(cwd + "/" + h);
    NormalizeCanonical(if IsAbsolute(h) then h else cwd + "/" + h);
    r
  }

  /** `path.join(dir, name)` for an absolute `dir`: both joined by a slash and normalized. */
  function JoinPath(dir: string, name: string): (r: string)
    ensures Canonical(r)
  {
    NormalizeCanonical(dir + "/" + name);
    Normalize(dir + "/" + name)
  }

  lemma NormalizeCanonical(p: string)
    ensures Canonical(Normalize(p))
  {
    var segs := Walk([], Split(p, '/'));
    assert PlainSegments(segs) && Normalize(p) == FromSegments(segs);
  }

  /** Walking plain segments enters each of them. */
  lemma {:induction false} WalkPlain(stack: seq<string>, segs: seq<string>)
    requires PlainSegments(stack) && PlainSegments(segs)
    ensures Walk(stack, segs) == stack + segs
    decreases |segs|
  {
    if |segs| == 0 {
      assert stack + segs == stack;
    } else {
      assert PlainSegments(segs[1..]) by {
        forall i | 0 <= i < |segs[1..]| ensures PlainSegment(segs[1..][i]) {
          assert segs[1..][i] == segs[i + 1];
        }
      }
      assert PlainSegments(stack + [segs[0]]) by {
        forall i | 0 <= i < |stack| + 1 ensures PlainSegment((stack + [segs[0]])[i]) {
          if i < |stack| { assert (stack + [segs[0]])[i] == stack[i]; }
        }
      }
      WalkPlain(stack + [segs[0]], segs[1..]);
      assert stack + [segs[0]] + segs[1..] == stack + segs;
    }
  }

  /** The slash-separated pieces of a canonical path: an empty piece before the leading
      slash, then its segments (or one more empty piece for the root itself). */
  lemma SplitCanonical(segs: seq<string>)
    requires PlainSegments(segs)
    ensures Split(FromSegments(segs), '/') == if segs == [] then ["", ""] else [""] + segs
  {
    var pieces := if segs == [] then ["", ""] else [""] + segs;
    assert Join(pieces, "/") == FromSegments(segs) by {
      if segs != [] {
        assert pieces[1..] == segs;
      } else {
        assert pieces[1..] == [""];
      }
    }
    forall i | 0 <= i < |pieces| ensures '/' !in pieces[i] {
      if segs != [] && i > 0 { assert pieces[i] == segs[i - 1]; }
    }
    SplitJoin(pieces, '/');
  }

  /** Normalizing a canonical path changes nothing: resolving is idempotent. */
  lemma NormalizeOfCanonical(segs: seq<string>)
    requires PlainSegments(segs)
    ensures Normalize(FromSegments(segs)) == FromSegments(segs)
  {
    SplitCanonical(segs);
    var pieces := Split(FromSegments(segs), '/');
    if segs == [] {
      assert Walk([], pieces) == [] by {
        assert pieces[1..] == [""] && pieces[1..][1..] == [];
        assert Walk([], pieces) == Walk([], [""]);
        assert Walk([], [""]) == Walk([], []);
      }
    } else {
      assert Walk([], pieces) == Walk([], segs) by {
        assert pieces[0] == "" && pieces[1..] == segs;
      }
      assert Walk([], segs) == segs by {
        WalkPlain([], segs);
        assert [] + segs == segs;
      }
    }
  }

  lemma ResolveIdempotent(cwd: string, h: string)
    ensures Resolve(cwd, Resolve(cwd, h)) == Resolve(cwd, h)
  {
    var r := Resolve(cwd, h);
    var segs :| PlainSegments(segs) && r == FromSegments(segs);
    NormalizeOfCanonical(segs);
  }

  /** A plain name joined onto a canonical directory is appended as one more segment. */
  lemma JoinPlain(segs: seq<string>, name: string)
    requires PlainSegments(segs) && PlainSegment(name)
    ensures JoinPath(FromSegments(segs), name) == FromSegments(segs + [name])
  {
    var dir := FromSegments(segs);
    var all := segs + [name];
    assert PlainSegments(all) by {
      forall i | 0 <= i < |all| ensures PlainSegment(all[i]) {
        if i < |segs| { assert all[i] == segs[i]; }
      }
    }
    if segs == [] {
      var pieces := ["", "", name];
      assert Join(pieces, "/") == dir + "/" + name by {
        assert pieces[1..] == ["", name] && pieces[1..][1..] == [name];
        assert Join([name], "/") == name;
        assert Join(["", name], "/") == "" + "/" + name;
        assert Join(pieces, "/") == "" + "/" + Join(["", name], "/");
      }
      forall i | 0 <= i < 3 ensures '/' !in pieces[i] { }
      SplitJoin(pieces, '/');
      assert Walk([], pieces) == [name] by {
        assert pieces[1..] == ["", name] && pieces[1..][1..] == [name];
        assert [name][1..] == [];
        assert Walk([], pieces) == Walk([], ["", name]);
        assert Walk([], ["", name]) == Walk([], [name]);
        assert Walk([], [name]) == Walk([] + [name], []);
        assert [] + [name] == [name];
      }
      assert Join([name], "/") == name;
    } else {
      JoinAppend(segs, name);
      assert dir + "/" + name == FromSegments(all);
      NormalizeOfCanonical(all);
    }
  }

  lemma {:induction false} JoinAppend(xs: seq<string>, x: string)
    requires |xs| >= 1
    ensures Join(xs + [x], "/") == Join(xs, "/") + "/" + x
    decreases |xs|
  {
    if |xs| == 1 {
      assert (xs + [x])[1..] == [x];
    } else {
      assert (xs + [x])[1..] == xs[1..] + [x];
      JoinAppend(xs[1..], x);
    }
  }

  // ---------------------------------------------------------------- extname

  /** Length of `p` without its trailing slashes. */
  function WithoutTrailingSlashes(p: string): (k: nat)
    ensures k <= |p|
    ensures k == 0 || p[k - 1] != '/'
    ensures forall i :: k <= i < |p| ==> p[i] == '/'
  {
    if |p| == 0 || p[|p| - 1] != '/' then |p|
    else WithoutTrailingSlashes(p[..|p| - 1])
  }

  /** Position of the last occurrence of `c`, if any. */
  function LastIndexOf(s: string, c: char): (r: int)
    ensures -1 <= r < |s|
    ensures r >= 0 ==> s[r] == c
    ensures forall i :: r < i < |s| ==> s[i] != c
  {
    if |s| == 0 then -1
    else if s[|s| - 1] == c then |s| - 1
    else LastIndexOf(s[..|s| - 1], c)
  }

  /** The last segment of `p`, trailing slashes ignored: `path.basename`. */
  function BaseName(p: string): (r: string)
    ensures '/' !in r
  {
    var e := WithoutTrailingSlashes(p);
    var s := LastIndexOf(p[..e], '/');
    p[s + 1..e]
  }

  /** `path.extname`: from the last dot of the base name on, unless that dot starts the
      base name or the base name is `..`. */
  function ExtName(p: string): (r: string)
    ensures r == "" || (r[0] == '.' && '.' !in r[1..] && '/' !in r)
  {
    var base := BaseName(p);
    var d := LastIndexOf(base, '.');
    if d <= 0 || base == ".." then ""
    else
      base[d..]
  }

  /** The extension of a file named `stem + ext`, where `ext` is a dot and then no dot:
      exactly `ext`, whatever directory the file is in. */
  lemma ExtNameOfFile(dir: string, stem: string, ext: string)
    requires stem != "" && '/' !in stem
    requires |ext| >= 1 && ext[0] == '.' && '.' !in ext[1..] && '/' !in ext
    requires !(stem == "." && ext == ".")
    ensures ExtName(dir + "/" + stem + ext) == ext
  {
    var p := dir + "/" + stem + ext;
    var base := stem + ext;
    assert WithoutTrailingSlashes(p) == |p| by {
      assert p[|p| - 1] == ext[|ext| - 1];
      if |ext| > 1 { assert ext[|ext| - 1] == ext[1..][|ext| - 2]; }
    }
    assert p[..|p|] == p;
    assert p[|dir|] == '/';
    forall i | |dir| < i < |p| ensures p[i] != '/' {
      if i <= |dir| + |stem| { assert p[i] == stem[i - |dir| - 1]; }
      else { assert p[i] == ext[i - |dir| - 1 - |stem|]; }
    }
    assert LastIndexOf(p, '/') == |dir| by {
      var s := LastIndexOf(p, '/');
      assert s >= |dir|;
    }
    assert BaseName(p) == base;
    assert base[|stem|] == '.';
    forall i | |stem| < i < |base| ensures base[i] != '.' {
      assert base[i] == ext[1..][i - |stem| - 1];
    }
    assert LastIndexOf(base, '.') == |stem|;
    assert base[|stem|..] == ext;
    assert base != ".." by { NotDotDot(stem, ext); }
  }

  lemma NotDotDot(stem: string, ext: string)
    requires stem != "" && ext != "" && !(stem == "." && ext == ".")
    ensures stem + ext != ".."
  {
    if |stem + ext| == 2 {
      assert stem == [(stem + ext)[0]] && ext == [(stem + ext)[1]];
    }
  }

  /** A name whose only dot is its first character has no extension: `.env`, `.bashrc`. */
  lemma ExtNameDotFile(dir: string, name: string)
    requires |name| >= 1 && name[0] == '.' && '.' !in name[1..] && '/' !in name
    ensures ExtName(dir + "/" + name) == ""
  {
    var p := dir + "/" + name;
    assert p[|p| - 1] == name[|name| - 1];
    if |name| > 1 { assert name[|name| - 1] == name[1..][|name| - 2]; }
    assert WithoutTrailingSlashes(p) == |p|;
    assert p[..|p|] == p;
    assert p[|dir|] == '/';
    forall i | |dir| < i < |p| ensures p[i] != '/' {
      assert p[i] == name[i - |dir| - 1];
    }
    assert LastIndexOf(p, '/') == |dir| by {
      var s := LastIndexOf(p, '/');
      assert s >= |dir|;
    }
    assert BaseName(p) == name;
    forall i | 0 < i < |name| ensures name[i] != '.' {
      assert name[i] == name[1..][i - 1];
    }
  }
}
