/**
 The `.env` files the CLI writes beside each service: one `name=<JSON of value>` line per
 property, and a lenient reader that takes each line apart at its first `=`, trims both
 halves, and keeps the JSON value of the right half when it is JSON and its text when not.
 */
module DotEnv {

  import opened Wrappers
  import opened Strings
  import opened Objects
  import opened Json

  /** The properties of a `.env` file, in file order. */
  type Env = Obj<Json>

  /** The line separators of the platforms the CLI runs on (`os.EOL`). */
  predicate IsEol(eol: string)
  {
    eol == "\n" || eol == "\r\n"
  }

  /** A name the reader gives back unchanged: not empty, not padded with white space,
      without `=` and on one line. */
  predicate ValidKey(k: string)
  {
    k != "" && Bounded(k) && '=' !in k && '\n' !in k
  }

  /** Every name is valid and every value is one JavaScript can build. */
  predicate Writable(obj: Env)
  {
    DistinctKeys(obj) && forall i :: 0 <= i < |obj| ==> ValidKey(obj[i].0) && WellFormed(obj[i].1)
  }

  function EnvLine(name: string, value: Json): string
  {
    name + "=" + Stringify(value)
  }

  /** `stringifyToEnv`: one line per property, in property order, joined by `eol`.  No
      properties give an empty text; the first line is the first property's; a single
      property is written without a line break. */
  function StringifyToEnv(obj: Env, eol: string): (r: string)
    ensures |obj| == 0 ==> r == ""
    ensures |obj| > 0 ==> StartsWith(r, EnvLine(obj[0].0, obj[0].1))
    ensures |obj| == 1 ==> r == EnvLine(obj[0].0, obj[0].1)
  {
    var lines := seq(|obj|, i requires 0 <= i < |obj| => EnvLine(obj[i].0, obj[i].1));
    var r := Join(lines, eol);
    assert |obj| > 1 ==> r == lines[0] + (eol + Join(lines[1..], eol));
    assert |obj| > 0 ==> r[..|lines[0]|] == lines[0];
    r
  }

  /** The value of a row: what `JSON.parse` makes of the text, or the text itself when it
      is not JSON. */
  function ParseValueText(raw: string): (v: Json)
    ensures WellFormed(v)
    ensures Parse(raw).Some? ==> v == Parse(raw).value
    ensures Parse(raw).None? ==> v == JString(raw)
  {
    match Parse(raw)
    case Some(v) => v
    case None => JString(raw)
  }

  /** One row: skipped without `=` or with an empty name; otherwise split at the first `=`. */
  function ParseRow(row: string): (r: Option<(string, Json)>)
    ensures '=' !in row ==> r.None?
    ensures r.Some? ==> r.value.0 != "" && Bounded(r.value.0) && '=' !in r.value.0 && WellFormed(r.value.1)
    ensures r.Some? && '\n' !in row ==> ValidKey(r.value.0)
  {
    match IndexOf(row, '=')
    case None => None
    case Some(idx) =>
      var key := Trim(row[..idx]);
      if key == "" then None
      else Some((key, ParseValueText(Trim(row[idx + 1..]))))
  }

  /** The properties the rows define, in row order, duplicates included. */
  function ParsedRows(rows: seq<string>): (r: seq<(string, Json)>)
    ensures forall i :: 0 <= i < |r| ==> r[i].0 != "" && Bounded(r[i].0) && '=' !in r[i].0 && WellFormed(r[i].1)
    ensures (forall i :: 0 <= i < |rows| ==> '\n' !in rows[i]) ==> forall i :: 0 <= i < |r| ==> ValidKey(r[i].0)
  {
    var parsed := seq(|rows|, i requires 0 <= i < |rows| => ParseRow(rows[i]));
    var r := Somes(parsed);
    assert forall i :: 0 <= i < |r| ==> Some(r[i]) in parsed;
    r
  }

  /** `parseEnv`: never fails; each row assigns its property in turn, so a later duplicate
      overwrites the value and keeps the first position. */
  function ParseEnv(text: string): (r: Env)
    ensures Writable(r)
    ensures forall k :: Get(r, k) == LastWith(ParsedRows(Split(text, '\n')), k)
  {
    var rows := Split(text, '\n');
    var r := FromPairs(ParsedRows(rows));
    assert forall i :: 0 <= i < |r| ==> r[i] in ParsedRows(rows);
    r
  }

  // ---------------------------------------------------------------- properties

  /** The rows of two consecutive parts define the properties of the first part, then those
      of the second. */
  lemma ParsedRowsAppend(a: seq<string>, b: seq<string>)
    ensures ParsedRows(a + b) == ParsedRows(a) + ParsedRows(b)
  {
    var pa := seq(|a|, i requires 0 <= i < |a| => ParseRow(a[i]));
    var pb := seq(|b|, i requires 0 <= i < |b| => ParseRow(b[i]));
    var pab := seq(|a + b|, i requires 0 <= i < |a + b| => ParseRow((a + b)[i]));
    assert pab == pa + pb;
    SomesAppend(pa, pb);
  }

  /** One row defines its property when it parses, and nothing otherwise. */
  lemma ParsedRowsOne(row: string)
    ensures ParsedRows([row]) == if ParseRow(row).Some? then [ParseRow(row).value] else []
  {
    var p := seq(1, i requires 0 <= i < 1 => ParseRow([row][i]));
    assert p == [ParseRow(row)];
    assert p[1..] == [];
  }

  /** Each property a part of the rows defines comes from one of its rows. */
  lemma ParsedRowFrom(rows: seq<string>, i: nat)
    requires i < |ParsedRows(rows)|
    ensures exists m :: 0 <= m < |rows| && ParseRow(rows[m]) == Some(ParsedRows(rows)[i])
  {
    var parsed := seq(|rows|, i requires 0 <= i < |rows| => ParseRow(rows[i]));
    assert Some(ParsedRows(rows)[i]) in parsed;
  }

  /** A property several rows define takes the value of the last of them: a later duplicate
      overwrites an earlier one. */
  lemma LaterDuplicateOverwrites(rows: seq<string>, j: nat, k: string, v: Json)
    requires forall i :: 0 <= i < |rows| ==> '\n' !in rows[i]
    requires j < |rows| && ParseRow(rows[j]) == Some((k, v))
    requires forall i :: j < i < |rows| ==> ParseRow(rows[i]).None? || ParseRow(rows[i]).value.0 != k
    ensures Get(ParseEnv(Join(rows, "\n")), k) == Some(v)
  {
    SplitJoin(rows, '\n');
    LastRowWins(rows, j, k, v);
  }

  lemma LastRowWins(rows: seq<string>, j: nat, k: string, v: Json)
    requires j < |rows| && ParseRow(rows[j]) == Some((k, v))
    requires forall i :: j < i < |rows| ==> ParseRow(rows[i]).None? || ParseRow(rows[i]).value.0 != k
    ensures LastWith(ParsedRows(rows), k) == Some(v)
  {
    var before := rows[..j];
    var after := rows[j + 1..];
    assert rows == before + [rows[j]] + after;
    ParsedRowsAppend(before + [rows[j]], after);
    ParsedRowsAppend(before, [rows[j]]);
    ParsedRowsOne(rows[j]);
    assert LastWith(ParsedRows(after), k).None? by {
      forall i | 0 <= i < |after| ensures ParseRow(after[i]).None? || ParseRow(after[i]).value.0 != k {
        assert after[i] == rows[j + 1 + i];
      }
      RowsWithout(after, k);
    }
    LastWithAppend(ParsedRows(before) + [(k, v)], ParsedRows(after), k);
    LastWithAppend(ParsedRows(before), [(k, v)], k);
  }

  /** Rows none of which defines `k` give it no value. */
  lemma RowsWithout(rows: seq<string>, k: string)
    requires forall i :: 0 <= i < |rows| ==> ParseRow(rows[i]).None? || ParseRow(rows[i]).value.0 != k
    ensures LastWith(ParsedRows(rows), k).None?
  {
    var ps := ParsedRows(rows);
    forall i | 0 <= i < |ps| ensures ps[i].0 != k {
      ParsedRowFrom(rows, i);
    }
    LastWithAbsent(ps, k);
  }

  /** A row is split at its FIRST `=`: the value may contain more of them. */
  lemma RowSplitsAtFirstEquals(name: string, value: string)
    requires '=' !in name && Trim(name) != ""
    ensures ParseRow(name + "=" + value) == Some((Trim(name), ParseValueText(Trim(value))))
  {
    var row := name + "=" + value;
    IndexOfPrefix(name, '=', value);
    assert row[..|name|] == name;
    assert row[|name| + 1..] == value;
  }

  /** A row whose name trims to nothing is skipped. */
  lemma RowWithEmptyName(name: string, value: string)
    requires '=' !in name && AllSpaces(name)
    ensures ParseRow(name + "=" + value) == None
  {
    IndexOfPrefix(name, '=', value);
    assert (name + "=" + value)[..|name|] == name;
  }

  /** A written line, with the carriage return a Windows line break leaves on it, reads
      back as the property it was written from. */
  lemma {:induction false} LineReadsBack(name: string, value: Json, cr: string)
    requires ValidKey(name) && WellFormed(value) && (cr == "" || cr == "\r")
    ensures ParseRow(EnvLine(name, value) + cr) == Some((name, value))
  {
    var json := Stringify(value);
    assert ParseValueText(Trim(json + cr)) == value by {
      TrimValue(value, cr);
      StringifyRoundTrip(value);
    }
    assert EnvLine(name, value) + cr == name + "=" + (json + cr);
    RowReadsBack(name, json + cr, value);
  }

  /** A row with a valid name reads back as that name and the value of its right half. */
  lemma RowReadsBack(name: string, text: string, v: Json)
    requires ValidKey(name) && ParseValueText(Trim(text)) == v
    ensures ParseRow(name + "=" + text) == Some((name, v))
  {
    RowSplitsAtFirstEquals(name, text);
    TrimBounded(name);
  }

  lemma TrimValue(value: Json, cr: string)
    requires cr == "" || cr == "\r"
    ensures Trim(Stringify(value) + cr) == Stringify(value)
  {
    var json := Stringify(value);
    PrintBounded(value, "", "");
    TrimAround("", json, cr);
    assert "" + json + cr == json + cr;
  }

  /** The rows of a file whose every row parses are its properties, in order. */
  lemma ParsedRowsAll(rows: seq<string>, ps: seq<(string, Json)>)
    requires |rows| == |ps|
    requires forall i :: 0 <= i < |rows| ==> ParseRow(rows[i]) == Some(ps[i])
    ensures ParsedRows(rows) == ps
  {
    var parsed := seq(|rows|, i requires 0 <= i < |rows| => ParseRow(rows[i]));
    SomesAll(parsed, ps);
  }

  /** The rows of a written file, with their carriage returns when `eol` is `\r\n`. */
  function WrittenRows(obj: Env, eol: string): (rows: seq<string>)
    requires IsEol(eol)
    ensures |rows| == |obj|
  {
    seq(|obj|, i requires 0 <= i < |obj| =>
      EnvLine(obj[i].0, obj[i].1) + (if eol == "\r\n" && i + 1 < |obj| then "\r" else ""))
  }

  /** Joining with `\r\n` is joining with `\n` after ending every line but the last with `\r`. */
  lemma {:induction false} JoinCrlf(lines: seq<string>, rows: seq<string>)
    requires |lines| == |rows| >= 1
    requires forall i :: 0 <= i < |lines| ==> rows[i] == lines[i] + (if i + 1 < |lines| then "\r" else "")
    ensures Join(lines, "\r\n") == Join(rows, "\n")
    decreases |lines|
  {
    if |lines| > 1 {
      JoinCrlf(lines[1..], rows[1..]);
      assert rows[0] == lines[0] + "\r";
      assert lines[0] + "\r\n" + Join(lines[1..], "\r\n") == (lines[0] + "\r") + "\n" + Join(rows[1..], "\n");
    }
  }

  /** A written file is split back into the rows it was written as. */
  lemma WrittenText(obj: Env, eol: string)
    requires IsEol(eol) && |obj| >= 1
    requires forall i :: 0 <= i < |obj| ==> ValidKey(obj[i].0)
    ensures StringifyToEnv(obj, eol) == Join(WrittenRows(obj, eol), "\n")
    ensures forall i :: 0 <= i < |obj| ==> '\n' !in WrittenRows(obj, eol)[i]
  {
    var lines := seq(|obj|, i requires 0 <= i < |obj| => EnvLine(obj[i].0, obj[i].1));
    var rows := WrittenRows(obj, eol);
    if eol == "\r\n" {
      JoinCrlf(lines, rows);
    } else {
      forall i | 0 <= i < |obj| ensures rows[i] == lines[i] {
        assert lines[i] + "" == lines[i];
      }
      assert rows == lines;
    }
    forall i | 0 <= i < |obj| ensures '\n' !in rows[i] {
      CompactOneLine(obj[i].1, "");
    }
  }

  /** Reading a written file gives back the properties it was written from. */
  lemma ParseStringifyRoundTrip(obj: Env, eol: string)
    requires IsEol(eol) && Writable(obj)
    ensures ParseEnv(StringifyToEnv(obj, eol)) == obj
  {
    if |obj| == 0 {
      assert Split("", '\n') == [""];
      assert ParsedRows([""]) == [];
    } else {
      var rows := WrittenRows(obj, eol);
      WrittenText(obj, eol);
      assert Split(StringifyToEnv(obj, eol), '\n') == rows by { SplitJoin(rows, '\n'); }
      forall i | 0 <= i < |obj| ensures ParseRow(rows[i]) == Some(obj[i]) {
        LineReadsBack(obj[i].0, obj[i].1, if eol == "\r\n" && i + 1 < |obj| then "\r" else "");
      }
      ParsedRowsAll(rows, obj);
      FromDistinctPairs(obj);
    }
  }

  /** The read-merge-write cycle of `compile` is stable: the file it writes reads back as
      exactly the merged properties, because every name read from a file is valid. */
  lemma MergeIsStable(existing: string, dotenv: Env, eol: string)
    requires IsEol(eol) && Writable(dotenv)
    ensures
      var merged := Spread(ParseEnv(existing), dotenv);
      ParseEnv(StringifyToEnv(merged, eol)) == merged
  {
    var before := ParseEnv(existing);
    var merged := Spread(before, dotenv);
    forall i | 0 <= i < |merged| ensures ValidKey(merged[i].0) && WellFormed(merged[i].1) {
      if merged[i] in before {
        var j :| 0 <= j < |before| && before[j] == merged[i];
      } else {
        var j :| 0 <= j < |dotenv| && dotenv[j] == merged[i];
      }
    }
    ParseStringifyRoundTrip(merged, eol);
  }
}
