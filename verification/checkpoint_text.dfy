/**
 * The text of the checkpoint file `lastsubmission.txt`: one line
 * `<feed> <seconds>` per watched feed, each ended by `'\n'`.
 *
 * Reading follows `load_last_submission_times`: the text is cut into lines,
 * each line is cut at single spaces, a line with exactly two fields sets
 * `feed -> int(second field)` (later lines win), any other line is skipped,
 * and a second field that is not an integer stops the load with an error.
 * Writing follows `write_last_submission_time`: one
 * `name + " " + str(value) + "\n"` per entry, in the dictionary's order.
 */
module CheckpointText {
  import opened Wrappers
  import opened SeqFacts

  // ---------------------------------------------------------------------
  // Cutting text at a separator
  // ---------------------------------------------------------------------

  /** `s.split(sep)`: the pieces of `s` between occurrences of `sep`, in order. */
  function Split(s: string, sep: char): (pieces: seq<string>)
    ensures |pieces| >= 1
    decreases |s|
  {
    if s == [] then [""]
    else
      var rest := Split(s[1..], sep);
      if s[0] == sep then [""] + rest
      else [[s[0]] + rest[0]] + rest[1..]
  }

  /** Number of occurrences of `c` in `s`. */
  function Count(s: string, c: char): nat
  {
    if s == [] then 0 else (if s[0] == c then 1 else 0) + Count(s[1..], c)
  }

  /** `sep.join(pieces)`: the pieces with one `sep` between neighbours. */
  function Join(pieces: seq<string>, sep: char): string
    requires |pieces| >= 1
  {
    if |pieces| == 1 then pieces[0] else pieces[0] + [sep] + Join(pieces[1..], sep)
  }

  /** Splitting yields one piece more than there are separators. */
  lemma {:induction false} SplitCount(s: string, sep: char)
    ensures |Split(s, sep)| == Count(s, sep) + 1
  {
    if s != [] {
      SplitCount(s[1..], sep);
    }
  }

  /** Splitting loses nothing: joining the pieces gives the text back, and no piece holds the separator. */
  lemma {:induction false} SplitJoin(s: string, sep: char)
    ensures Join(Split(s, sep), sep) == s
    ensures forall i :: 0 <= i < |Split(s, sep)| ==> sep !in Split(s, sep)[i]
  {
    if s != [] {
      var rest := Split(s[1..], sep);
      SplitJoin(s[1..], sep);
      if s[0] == sep {
        assert Split(s, sep) == [""] + rest;
        assert ([""] + rest)[1..] == rest;
        assert Join(Split(s, sep), sep) == [sep] + s[1..];
      } else {
        var head := [s[0]] + rest[0];
        assert Split(s, sep) == [head] + rest[1..];
        if |rest| == 1 {
          assert Join(Split(s, sep), sep) == [s[0]] + s[1..];
        } else {
          assert ([head] + rest[1..])[1..] == rest[1..];
          assert Join(rest, sep) == rest[0] + [sep] + Join(rest[1..], sep);
          assert Join(Split(s, sep), sep) == [s[0]] + Join(rest, sep);
        }
        forall i | 0 <= i < |Split(s, sep)|
          ensures sep !in Split(s, sep)[i]
        {
          if i == 0 {
            assert sep !in rest[0];
          } else {
            assert Split(s, sep)[i] == rest[i];
          }
        }
      }
      assert s == [s[0]] + s[1..];
    }
  }

  /** Text without the separator is a single piece. */
  lemma {:induction false} SplitWithout(s: string, sep: char)
    requires sep !in s
    ensures Split(s, sep) == [s]
  {
    if s != [] {
      assert sep !in s[1..];
      SplitWithout(s[1..], sep);
      assert [s[0]] + s[1..] == s;
    }
  }

  /** Splitting at a separator in the middle concatenates the pieces of both sides. */
  lemma {:induction false} SplitAround(x: string, sep: char, y: string)
    ensures Split(x + [sep] + y, sep) == Split(x, sep) + Split(y, sep)
  {
    var s := x + [sep] + y;
    if x == [] {
      assert s[0] == sep && s[1..] == y;
    } else {
      assert s[0] == x[0];
      assert s[1..] == x[1..] + [sep] + y;
      SplitAround(x[1..], sep, y);
    }
  }

  /** `text.splitlines()` for text whose only line break is `'\n'`:
      the pieces between breaks, without the empty piece after a final break. */
  function SplitLines(text: string): seq<string>
  {
    var pieces := Split(text, '\n');
    if pieces[|pieces| - 1] == "" then pieces[..|pieces| - 1] else pieces
  }

  // ---------------------------------------------------------------------
  // Integers as decimal text
  // ---------------------------------------------------------------------

  predicate IsDigit(c: char) { '0' <= c <= '9' }

  predicate AllDigits(s: string) { forall i :: 0 <= i < |s| ==> IsDigit(s[i]) }

  function DigitChar(d: nat): char
    requires d < 10
  {
    ('0' as int + d) as char
  }

  function DigitValue(c: char): nat
    requires IsDigit(c)
  {
    c as int - '0' as int
  }

  /** `str(n)` for `n >= 0`: decimal digits, most significant first, no leading zeros. */
  function NatToString(n: nat): (s: string)
    ensures |s| >= 1 && AllDigits(s)
  {
    if n < 10 then [DigitChar(n)] else NatToString(n / 10) + [DigitChar(n % 10)]
  }

  /** `str(i)`: a minus sign before the digits of a negative number. */
  function IntToString(i: int): string
  {
    if i < 0 then "-" + NatToString(-i) else NatToString(i)
  }

  /** The number a string of decimal digits denotes. */
  function DigitsValue(s: string): nat
    requires AllDigits(s)
  {
    if s == [] then 0 else DigitsValue(s[..|s| - 1]) * 10 + DigitValue(s[|s| - 1])
  }

  /** `int(s)`: an optional sign followed by at least one decimal digit;
      `None` where Python's `int` raises `ValueError`. */
  function ParseInt(s: string): Option<int>
  {
    if |s| >= 2 && (s[0] == '-' || s[0] == '+') && AllDigits(s[1..]) then
      Some(if s[0] == '-' then -(DigitsValue(s[1..]) as int) else DigitsValue(s[1..]))
    else if |s| >= 1 && AllDigits(s) then
      Some(DigitsValue(s))
    else
      None
  }

  lemma {:induction false} DigitsOfNat(n: nat)
    ensures DigitsValue(NatToString(n)) == n
  {
    var s := NatToString(n);
    if n >= 10 {
      DigitsOfNat(n / 10);
      assert s[..|s| - 1] == NatToString(n / 10);
    }
  }

  /** Reading back what `str` printed gives the same integer. */
  lemma ParseIntOfString(i: int)
    ensures ParseInt(IntToString(i)) == Some(i)
  {
    var s := IntToString(i);
    if i < 0 {
      assert s[1..] == NatToString(-i);
      DigitsOfNat(-i);
    } else {
      DigitsOfNat(i);
      assert IsDigit(s[0]);
    }
  }

  /** A printed integer holds neither a space nor a line break. */
  lemma NumberIsOneField(i: int)
    ensures ' ' !in IntToString(i) && '\n' !in IntToString(i)
  {
    var digits := NatToString(if i < 0 then -i else i);
    assert forall k :: 0 <= k < |digits| ==> IsDigit(digits[k]);
    if i < 0 {
      assert IntToString(i) == ['-'] + digits;
    }
  }

  // ---------------------------------------------------------------------
  // Lines and whole files
  // ---------------------------------------------------------------------

  /** What the loader makes of one line. */
  datatype LineParse =
    | Entry(name: string, value: int)   // exactly two fields, the second an integer
    | Skipped                            // not exactly two fields: ignored
    | BadValue                           // two fields, but `int()` raises on the second

  function ParseLine(line: string): LineParse
  {
    var fields := Split(line, ' ');
    if |fields| != 2 then Skipped
    else match ParseInt(fields[1])
      case None => BadValue
      case Some(v) => Entry(fields[0], v)
  }

  /** The line the writer emits for one entry, without its line break. */
  function Line(name: string, value: int): string
  {
    name + " " + IntToString(value)
  }

  /** A feed name that the file format can carry. */
  predicate Plain(name: string)
  {
    ' ' !in name && '\n' !in name
  }

  /** A line is kept exactly when it holds one space; it is then the feed name,
      that space, and a field that must read as an integer. */
  lemma ParseLineCases(line: string)
    ensures ParseLine(line).Skipped? <==> Count(line, ' ') != 1
    ensures Count(line, ' ') == 1 ==>
      var fields := Split(line, ' ');
      && line == fields[0] + " " + fields[1]
      && ' ' !in fields[0] && ' ' !in fields[1]
      && (ParseLine(line).Entry? <==> ParseInt(fields[1]).Some?)
  {
    SplitCount(line, ' ');
    SplitJoin(line, ' ');
    var fields := Split(line, ' ');
    if |fields| == 2 {
      assert fields[1..] == [fields[1]];
      assert Join(fields, ' ') == fields[0] + [' '] + fields[1];
    }
  }

  /** The loader reads back the line the writer printed. */
  lemma ParseLineOfLine(name: string, value: int)
    requires ' ' !in name
    ensures ParseLine(Line(name, value)) == Entry(name, value)
  {
    var digits := IntToString(value);
    assert Line(name, value) == name + [' '] + digits;
    SplitAround(name, ' ', digits);
    SplitWithout(name, ' ');
    NumberIsOneField(value);
    SplitWithout(digits, ' ');
    ParseIntOfString(value);
  }

  /**
   * Loading `lines` on top of the dictionary `m`, as the loader's loop does:
   * an entry line sets its feed, a skipped line changes nothing, and the first
   * line whose value is not an integer stops the load with its index.
   */
  function LoadLines(m: map<string, int>, lines: seq<string>): (r: Result<map<string, int>, nat>)
    ensures r.Err? ==> r.error < |lines| && ParseLine(lines[r.error]).BadValue?
  {
    if lines == [] then Ok(m)
    else
      var last := |lines| - 1;
      match LoadLines(m, lines[..last])
      case Err(k) => Err(k)
      case Ok(prev) =>
        match ParseLine(lines[last])
        case Skipped => Ok(prev)
        case BadValue => Err(last)
        case Entry(name, v) => Ok(prev[name := v])
  }

  /** `load_last_submission_times` on the text of the file. */
  function LoadText(m: map<string, int>, text: string): Result<map<string, int>, nat>
  {
    LoadLines(m, SplitLines(text))
  }

  /** The load fails exactly when some line has a non-integer value, and then at the first such line. */
  lemma {:induction false} LoadFailsAtFirstBadLine(m: map<string, int>, lines: seq<string>)
    ensures LoadLines(m, lines).Err? <==> exists i :: 0 <= i < |lines| && ParseLine(lines[i]).BadValue?
    ensures LoadLines(m, lines).Err? ==>
      forall j :: 0 <= j < LoadLines(m, lines).error ==> !ParseLine(lines[j]).BadValue?
  {
    if lines != [] {
      var last := |lines| - 1;
      var prefix := lines[..last];
      LoadFailsAtFirstBadLine(m, prefix);
      assert forall i :: 0 <= i < last ==> prefix[i] == lines[i];
      if LoadLines(m, prefix).Ok? && ParseLine(lines[last]).BadValue? {
        assert !exists i :: 0 <= i < last && ParseLine(prefix[i]).BadValue?;
      }
    }
  }

  /** Some line of the text has a second field that is not an integer. */
  predicate HasBadValue(text: string)
  {
    exists i :: 0 <= i < |SplitLines(text)| && ParseLine(SplitLines(text)[i]).BadValue?
  }

  /** Whether a load fails depends on the text alone, not on what was loaded before. */
  lemma LoadTextFails(m: map<string, int>, text: string)
    ensures LoadText(m, text).Err? <==> HasBadValue(text)
  {
    LoadFailsAtFirstBadLine(m, SplitLines(text));
  }

  /** Once a prefix of the lines fails, the whole load fails at the same line. */
  lemma {:induction false} LoadErrorSticks(m: map<string, int>, lines: seq<string>, n: nat)
    requires n <= |lines|
    requires LoadLines(m, lines[..n]).Err?
    ensures LoadLines(m, lines) == LoadLines(m, lines[..n])
    decreases |lines| - n
  {
    if n < |lines| {
      assert lines[..n + 1][..n] == lines[..n];
      LoadErrorSticks(m, lines, n + 1);
    } else {
      assert lines[..n] == lines;
    }
  }

  /** The line sets the feed `n`. */
  predicate Sets(line: string, n: string)
  {
    ParseLine(line).Entry? && ParseLine(line).name == n
  }

  /** Line `i` is the last of `lines` that sets the feed `n`. */
  predicate LastSetter(lines: seq<string>, n: string, i: int)
  {
    0 <= i < |lines| && Sets(lines[i], n) && forall j :: i < j < |lines| ==> !Sets(lines[j], n)
  }

  /** A feed that some line sets has a last line that sets it. */
  lemma {:induction false} LastSetterExists(lines: seq<string>, n: string, i: nat)
    requires i < |lines| && Sets(lines[i], n)
    ensures exists k :: i <= k && LastSetter(lines, n, k)
    decreases |lines| - i
  {
    if exists j :: i < j < |lines| && Sets(lines[j], n) {
      var j :| i < j < |lines| && Sets(lines[j], n);
      LastSetterExists(lines, n, j);
    } else {
      assert LastSetter(lines, n, i);
    }
  }

  /**
   * What a successful load yields: a feed that some line sets holds the value
   * of the last line that sets it, so later lines override earlier ones; a
   * feed that no line sets is present and valued exactly as before the load.
   */
  lemma {:induction false} LoadedValues(m: map<string, int>, lines: seq<string>)
    requires LoadLines(m, lines).Ok?
    ensures forall n, i :: LastSetter(lines, n, i) ==>
      n in LoadLines(m, lines).value && LoadLines(m, lines).value[n] == ParseLine(lines[i]).value
    ensures forall n :: (forall i :: 0 <= i < |lines| ==> !Sets(lines[i], n)) ==>
      && (n in LoadLines(m, lines).value <==> n in m)
      && (n in m ==> LoadLines(m, lines).value[n] == m[n])
  {
    if lines != [] {
      var last := |lines| - 1;
      var prefix := lines[..last];
      LoadedValues(m, prefix);
      var r := LoadLines(m, lines).value;
      assert forall j :: 0 <= j < last ==> prefix[j] == lines[j];
      forall n, i | LastSetter(lines, n, i)
        ensures n in r && r[n] == ParseLine(lines[i]).value
      {
        if i < last {
          assert LastSetter(prefix, n, i);
          assert !Sets(lines[last], n);
        }
      }
      forall n | forall i :: 0 <= i < |lines| ==> !Sets(lines[i], n)
        ensures (n in r <==> n in m) && (n in m ==> r[n] == m[n])
      {
        assert !Sets(lines[last], n);
        assert forall i :: 0 <= i < |prefix| ==> !Sets(prefix[i], n);
      }
    }
  }

  /** Loading the same lines again over what they loaded changes nothing. */
  lemma LoadIdempotent(m: map<string, int>, lines: seq<string>)
    requires LoadLines(m, lines).Ok?
    ensures LoadLines(LoadLines(m, lines).value, lines) == LoadLines(m, lines)
  {
    var r := LoadLines(m, lines).value;
    LoadFailsAtFirstBadLine(m, lines);
    LoadFailsAtFirstBadLine(r, lines);
    var r2 := LoadLines(r, lines).value;
    LoadedValues(m, lines);
    LoadedValues(r, lines);
    forall n
      ensures (n in r2 <==> n in r) && (n in r ==> r2[n] == r[n])
    {
      if exists i :: 0 <= i < |lines| && Sets(lines[i], n) {
        var i :| 0 <= i < |lines| && Sets(lines[i], n);
        LastSetterExists(lines, n, i);
        var k :| i <= k && LastSetter(lines, n, k);
      }
    }
    assert r2 == r;
  }

  /** Reloading a file into the dictionary it already loaded leaves that dictionary as it is. */
  lemma LoadTextIdempotent(m: map<string, int>, text: string)
    requires LoadText(m, text).Ok?
    ensures LoadText(LoadText(m, text).value, text) == LoadText(m, text)
  {
    LoadIdempotent(m, SplitLines(text));
  }

  /**
   * The value the writer prints for `name`: `get(name, "10000")`. The writer
   * only asks for keys of the dictionary, so the default is never printed.
   */
  function Printed(m: map<string, int>, name: string): int
  {
    if name in m then m[name] else 10000
  }

  /** The lines the writer emits for `names`, in order. */
  function EntryLines(names: seq<string>, m: map<string, int>): (lines: seq<string>)
    ensures |lines| == |names|
  {
    if names == [] then []
    else
      var last := names[|names| - 1];
      EntryLines(names[..|names| - 1], m) + [Line(last, Printed(m, last))]
  }

  /** The whole file as `write_last_submission_time` builds it with `+=`. */
  function Serialize(names: seq<string>, m: map<string, int>): string
  {
    SerializeUpTo(names, m, |names|)
  }

  /** The text the writer has built after its first `k` keys. */
  function SerializeUpTo(names: seq<string>, m: map<string, int>, k: nat): string
    requires k <= |names|
  {
    if k == 0 then ""
    else SerializeUpTo(names, m, k - 1) + Line(names[k - 1], Printed(m, names[k - 1])) + "\n"
  }

  /** The text after `k` keys depends only on those keys. */
  lemma {:induction false} SerializeUpToPrefix(names: seq<string>, prefix: seq<string>, m: map<string, int>, k: nat)
    requires prefix <= names && k <= |prefix|
    ensures SerializeUpTo(names, m, k) == SerializeUpTo(prefix, m, k)
  {
    if k > 0 {
      SerializeUpToPrefix(names, prefix, m, k - 1);
    }
  }

  /** The written text is the text of all keys but the last, then the last key's line. */
  lemma SerializeLast(names: seq<string>, m: map<string, int>)
    requires |names| > 0
    ensures var last := names[|names| - 1];
      Serialize(names, m) == Serialize(names[..|names| - 1], m) + Line(last, Printed(m, last)) + "\n"
  {
    SerializeUpToPrefix(names, names[..|names| - 1], m, |names| - 1);
  }

  /** A written line, its break and whatever follows split into that line and the pieces of the rest. */
  lemma SplitAfterLine(name: string, value: int, tail: string)
    requires Plain(name)
    ensures Split(Line(name, value) + "\n" + tail, '\n') == [Line(name, value)] + Split(tail, '\n')
  {
    var line := Line(name, value);
    NumberIsOneField(value);
    assert line == name + " " + IntToString(value);
    assert '\n' !in line;
    assert line + "\n" + tail == line + ['\n'] + tail;
    SplitAround(line, '\n', tail);
    SplitWithout(line, '\n');
  }

  /** The written text of several entries followed by more text, regrouped around its last line. */
  lemma SerializeSnoc(names: seq<string>, m: map<string, int>, tail: string)
    requires |names| > 0
    requires forall i :: 0 <= i < |names| ==> names[i] in m
    ensures var last := names[|names| - 1];
      Serialize(names, m) + tail == Serialize(names[..|names| - 1], m) + (Line(last, m[last]) + "\n" + tail)
  {
    SerializeLast(names, m);
  }

  /** Regrouping the pieces in the last step of `SplitSerialized`. */
  lemma Regroup(pieces: seq<string>, head: seq<string>, rest: seq<string>, line: string, after: seq<string>, lines: seq<string>)
    requires pieces == head + rest
    requires rest == [line] + after
    requires lines == head + [line]
    ensures pieces == lines + after
  {
  }

  lemma {:induction false} SplitSerialized(names: seq<string>, m: map<string, int>, tail: string)
    requires forall i :: 0 <= i < |names| ==> names[i] in m && Plain(names[i])
    ensures Split(Serialize(names, m) + tail, '\n') == EntryLines(names, m) + Split(tail, '\n')
  {
    if names == [] {
      assert Serialize(names, m) + tail == tail;
    } else {
      var prefix, last := names[..|names| - 1], names[|names| - 1];
      var line := Line(last, m[last]);
      var rest := line + "\n" + tail;
      var head := EntryLines(prefix, m);
      assert Serialize(names, m) + tail == Serialize(prefix, m) + rest by {
        SerializeSnoc(names, m, tail);
      }
      assert Split(Serialize(prefix, m) + rest, '\n') == head + Split(rest, '\n') by {
        SplitSerialized(prefix, m, rest);
      }
      assert Split(rest, '\n') == [line] + Split(tail, '\n') by {
        SplitAfterLine(last, m[last], tail);
      }
      assert EntryLines(names, m) == head + [line];
      Regroup(Split(Serialize(prefix, m) + rest, '\n'), head, Split(rest, '\n'), line, Split(tail, '\n'), EntryLines(names, m));
    }
  }

  /** Cutting the written file into lines gives back exactly the lines written. */
  lemma SplitLinesSerialized(names: seq<string>, m: map<string, int>)
    requires forall i :: 0 <= i < |names| ==> names[i] in m && Plain(names[i])
    ensures SplitLines(Serialize(names, m)) == EntryLines(names, m)
  {
    var lines := EntryLines(names, m);
    SplitSerialized(names, m, "");
    assert Serialize(names, m) + "" == Serialize(names, m);
    assert Split(Serialize(names, m), '\n') == lines + [""];
    assert (lines + [""])[..|lines|] == lines;
  }

  /** The entries of `m` for the feeds listed in `names`. */
  function Restrict(m: map<string, int>, names: seq<string>): map<string, int>
  {
    map n | n in m && n in names :: m[n]
  }

  lemma RestrictSnoc(m0: map<string, int>, m: map<string, int>, prefix: seq<string>, last: string)
    requires last in m
    ensures (m0 + Restrict(m, prefix))[last := m[last]] == m0 + Restrict(m, prefix + [last])
  {
    var names := prefix + [last];
    assert forall n :: n in names <==> n in prefix || n == last;
  }

  /** Loading one more line that holds an entry sets that entry. */
  lemma LoadSnocEntry(m: map<string, int>, lines: seq<string>, line: string, prev: map<string, int>, name: string, value: int)
    requires LoadLines(m, lines) == Ok(prev)
    requires ParseLine(line) == Entry(name, value)
    ensures LoadLines(m, lines + [line]) == Ok(prev[name := value])
  {
    assert (lines + [line])[..|lines|] == lines;
  }

  /** The loader's loop applies one more line. */
  lemma LoadNext(m: map<string, int>, lines: seq<string>, i: nat, prev: map<string, int>, parsed: LineParse)
    requires i < |lines|
    requires LoadLines(m, lines[..i]) == Ok(prev)
    requires ParseLine(lines[i]) == parsed
    ensures LoadLines(m, lines[..i + 1]) ==
      match parsed
      case Skipped => Ok(prev)
      case BadValue => Err(i)
      case Entry(name, value) => Ok(prev[name := value])
  {
    assert lines[..i + 1][..i] == lines[..i];
  }


  /** Loading the written lines over `m0` sets exactly the written feeds to their values. */
  lemma {:induction false} LoadEntryLines(m0: map<string, int>, names: seq<string>, m: map<string, int>)
    requires forall i :: 0 <= i < |names| ==> names[i] in m && Plain(names[i])
    ensures LoadLines(m0, EntryLines(names, m)) == Ok(m0 + Restrict(m, names))
  {
    if names != [] {
      var prefix, last := names[..|names| - 1], names[|names| - 1];
      var before := m0 + Restrict(m, prefix);
      assert EntryLines(names, m) == EntryLines(prefix, m) + [Line(last, m[last])];
      LoadEntryLines(m0, prefix, m);
      ParseLineOfLine(last, m[last]);
      LoadSnocEntry(m0, EntryLines(prefix, m), Line(last, m[last]), before, last, m[last]);
      DropLastSnoc(names);
      RestrictSnoc(m0, m, prefix, last);
    } else {
      assert Restrict(m, names) == map[];
      assert m0 + map[] == m0;
    }
  }

  /**
   * The checkpoint text round-trips: loading what the writer saved for a
   * dictionary whose feed names are listed in `names` gives that dictionary
   * back on top of whatever was loaded before.
   */
  lemma CheckpointRoundTrip(m0: map<string, int>, names: seq<string>, m: map<string, int>)
    requires forall i :: 0 <= i < |names| ==> names[i] in m && Plain(names[i])
    requires forall n :: n in m ==> n in names
    ensures LoadText(m0, Serialize(names, m)) == Ok(m0 + m)
  {
    SplitLinesSerialized(names, m);
    LoadEntryLines(m0, names, m);
    assert Restrict(m, names) == m;
  }
}
