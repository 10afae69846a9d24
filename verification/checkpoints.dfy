/**
 * The checkpoint store: the global dictionary `last_submission_sec` (feed
 * name -> seconds of the last post handled) and the file that mirrors it.
 * Python dictionaries keep insertion order, so the store keeps the feed names
 * in `names`, in the order they were first added, beside the map `times`.
 * The lock around the write is modelled by making `Write` one method.
 */
module Checkpoints {
  import opened Wrappers
  import opened CheckpointText
  import opened SeqFacts

  /** How a load ended. */
  datatype LoadStatus =
    | Loaded                      // every line read
    | FileMissing                 // `open` raises: there is no checkpoint file
    | BadValueOnLine(line: nat)   // `int()` raised on this line; earlier lines were applied

  /** `names` lists every key of `times` exactly once. */
  ghost predicate Indexes(names: seq<string>, times: map<string, int>)
  {
    && (forall i, j :: 0 <= i < j < |names| ==> names[i] != names[j])
    && (forall n :: n in times <==> n in names)
  }

  /** The key order after setting `name`: a new key goes last, an old key keeps its place. */
  function Insert(names: seq<string>, name: string): seq<string>
  {
    if name in names then names else names + [name]
  }

  lemma IndexesInsert(names: seq<string>, times: map<string, int>, name: string, value: int)
    requires Indexes(names, times)
    ensures Indexes(Insert(names, name), times[name := value])
    ensures forall k :: 0 <= k < |Insert(names, name)| ==> Insert(names, name)[k] in times[name := value]
  {
    var after := Insert(names, name);
    if name !in names {
      assert forall n :: n in after <==> n in names || n == name;
      forall i, j | 0 <= i < j < |after|
        ensures after[i] != after[j]
      {
        if j == |names| {
          assert after[i] == names[i];
        }
      }
    }
  }

  /** The key order after loading `lines`: every line that sets a feed inserts it, in file order. */
  function LoadedNames(names: seq<string>, lines: seq<string>): seq<string>
  {
    if lines == [] then names
    else
      var prev := LoadedNames(names, lines[..|lines| - 1]);
      match ParseLine(lines[|lines| - 1])
      case Entry(name, _) => Insert(prev, name)
      case _ => prev
  }

  /**
   * A load keeps the old key order as a prefix, adds no feed that no line
   * sets, and ends with every feed that some line sets among its keys.
   */
  lemma {:induction false} LoadedNamesGrow(names: seq<string>, lines: seq<string>)
    ensures names <= LoadedNames(names, lines)
    ensures forall i :: 0 <= i < |lines| && ParseLine(lines[i]).Entry? ==> ParseLine(lines[i]).name in LoadedNames(names, lines)
    ensures forall n :: n in LoadedNames(names, lines) ==> n in names || exists i :: 0 <= i < |lines| && Sets(lines[i], n)
  {
    if lines != [] {
      var prefix := lines[..|lines| - 1];
      LoadedNamesGrow(names, prefix);
      assert forall i :: 0 <= i < |prefix| ==> prefix[i] == lines[i];
      var prev := LoadedNames(names, prefix);
      match ParseLine(lines[|lines| - 1]) {
        case Entry(name, _) =>
          PrefixSnoc(names, prev, name);
          assert Sets(lines[|lines| - 1], name);
        case Skipped =>
        case BadValue =>
      }
    }
  }

  /** Loading lines whose feeds are all keys already leaves the key order as it is. */
  lemma {:induction false} LoadedNamesKnown(names: seq<string>, lines: seq<string>)
    requires forall i :: 0 <= i < |lines| && ParseLine(lines[i]).Entry? ==> ParseLine(lines[i]).name in names
    ensures LoadedNames(names, lines) == names
  {
    if lines != [] {
      var prefix := lines[..|lines| - 1];
      assert forall i :: 0 <= i < |prefix| ==> prefix[i] == lines[i];
      LoadedNamesKnown(names, prefix);
    }
  }

  /** Loading the same lines again leaves the key order they produced as it is. */
  lemma LoadedNamesIdempotent(names: seq<string>, lines: seq<string>)
    ensures LoadedNames(LoadedNames(names, lines), lines) == LoadedNames(names, lines)
  {
    LoadedNamesGrow(names, lines);
    LoadedNamesKnown(LoadedNames(names, lines), lines);
  }

  /**
   * The loader's state after the first `i` of `lines`, starting from the
   * dictionary `m0` with key order `names0`: what the lines so far produced.
   */
  ghost predicate Loading(m0: map<string, int>, names0: seq<string>, lines: seq<string>, i: nat,
                          m: map<string, int>, names: seq<string>)
  {
    && i <= |lines|
    && Indexes(names, m)
    && names0 <= names
    && LoadLines(m0, lines[..i]) == Ok(m)
    && names == LoadedNames(names0, lines[..i])
  }

  /** One line of the loader: skipped, the load's error, or the feed set and inserted. */
  lemma LoadingNext(m0: map<string, int>, names0: seq<string>, lines: seq<string>, i: nat,
                    m: map<string, int>, names: seq<string>)
    requires i < |lines| && Loading(m0, names0, lines, i, m, names)
    ensures match ParseLine(lines[i])
      case Skipped => Loading(m0, names0, lines, i + 1, m, names)
      case BadValue => LoadLines(m0, lines) == Err(i)
      case Entry(name, value) => Loading(m0, names0, lines, i + 1, m[name := value], Insert(names, name))
  {
    assert lines[..i + 1][..i] == lines[..i];
    match ParseLine(lines[i]) {
      case Skipped =>
        LoadNext(m0, lines, i, m, Skipped);
      case BadValue =>
        LoadNext(m0, lines, i, m, BadValue);
        LoadErrorSticks(m0, lines, i + 1);
      case Entry(name, value) =>
        LoadNext(m0, lines, i, m, Entry(name, value));
        IndexesInsert(names, m, name, value);
        if name !in names {
          PrefixSnoc(names0, names, name);
        }
    }
  }

  /** The writer's loop appends one line per key. */
  lemma SerializeNext(keys: seq<string>, m: map<string, int>, i: nat)
    requires i < |keys|
    ensures Serialize(keys[..i + 1], m) == Serialize(keys[..i], m) + Line(keys[i], Printed(m, keys[i])) + "\n"
  {
    SerializeLast(keys[..i + 1], m);
    assert keys[..i + 1][..i] == keys[..i];
  }

  /** The writer's `+=` loop: one `name + " " + str(value) + "\n"` per key, in key order. */
  method Render(keys: seq<string>, entries: map<string, int>) returns (text: string)
    ensures text == Serialize(keys, entries)
  {
    text := "";
    var i := 0;
    while i < |keys|
      invariant 0 <= i <= |keys|
      invariant text == Serialize(keys[..i], entries)
    {
      SerializeNext(keys, entries, i);
      var value := if keys[i] in entries then entries[keys[i]] else 10000;
      text := text + Line(keys[i], value) + "\n";
      i := i + 1;
    }
    assert keys[..i] == keys;
  }

  class CheckpointStore {
    /** The dictionary's keys in insertion order. */
    var names: seq<string>
    /** The dictionary itself. */
    var times: map<string, int>
    /** The contents of the checkpoint file, `None` while it does not exist. */
    var file: Option<string>

    /** `names` lists every key of `times` once. */
    ghost predicate Valid()
      reads this
    {
      Indexes(names, times)
    }

    constructor (file: Option<string>)
      ensures Valid()
      ensures names == [] && times == map[] && this.file == file
    {
      names := [];
      times := map[];
      this.file := file;
    }

    /** `last_submission_sec.get(feed, 0)`. */
    function Get(feed: string): int
      reads this
    {
      if feed in times then times[feed] else 0
    }

    /** Creates an empty checkpoint file when there is none (`main`, before each load). */
    method EnsureFile()
      modifies this`file
      ensures file == if old(file).None? then Some("") else old(file)
    {
      if file.None? {
        file := Some("");
      }
    }

    /**
     * `load_last_submission_times`: applies the file's lines to the dictionary
     * in order. The dictionary is not cleared first, so feeds absent from the
     * file keep their values; new feeds are appended to the key order in the
     * order the file first sets them.
     */
    method Load() returns (status: LoadStatus)
      requires Valid()
      modifies this`names, this`times
      ensures Valid()
      ensures old(names) <= names
      ensures file.None? ==> status == FileMissing && names == old(names) && times == old(times)
      ensures file.Some? ==>
        match LoadText(old(times), file.value)
        case Ok(m) =>
          && status == Loaded && times == m
          && names == LoadedNames(old(names), SplitLines(file.value))
        case Err(k) =>
          && status == BadValueOnLine(k)
          && LoadLines(old(times), SplitLines(file.value)[..k]) == Ok(times)
          && names == LoadedNames(old(names), SplitLines(file.value)[..k])
    {
      if file.None? {
        return FileMissing;
      }
      var lines := SplitLines(file.value);
      var i := 0;
      while i < |lines|
        invariant Loading(old(times), old(names), lines, i, times, names)
      {
        LoadingNext(old(times), old(names), lines, i, times, names);
        match ParseLine(lines[i]) {
          case Skipped =>
          case BadValue =>
            return BadValueOnLine(i);
          case Entry(name, value) =>
            times := times[name := value];
            names := Insert(names, name);
        }
        i := i + 1;
      }
      TakeAll(lines, i);
      status := Loaded;
    }

    /** The part of `main` that prepares and loads the checkpoints at the start of each cycle. */
    method Reload() returns (status: LoadStatus)
      requires Valid()
      modifies this
      ensures Valid()
      ensures file == if old(file).None? then Some("") else old(file)
      ensures old(names) <= names
      ensures match LoadText(old(times), file.value)
        case Ok(m) => status == Loaded && times == m && names == LoadedNames(old(names), SplitLines(file.value))
        case Err(k) => status == BadValueOnLine(k) && names == LoadedNames(old(names), SplitLines(file.value)[..k])
    {
      EnsureFile();
      status := Load();
    }

    /** `last_submission_sec[feed] = seconds`: a new feed goes last in the key order. */
    method Set(feed: string, seconds: int)
      requires Valid()
      modifies this`names, this`times
      ensures Valid()
      ensures times == old(times)[feed := seconds]
      ensures names == Insert(old(names), feed)
    {
      IndexesInsert(names, times, feed, seconds);
      names, times := Insert(names, feed), times[feed := seconds];
    }

    /** Rewrites the whole file from the dictionary, one line per entry in key order. */
    method Save()
      requires Valid()
      modifies this`file
      ensures file == Some(Serialize(names, times))
    {
      var text := Render(names, times);
      file := Some(text);
    }

    /**
     * `write_last_submission_time`, under its lock: sets the feed's entry and
     * rewrites the whole file from the dictionary. No other entry changes;
     * `WrittenFileReloads` shows the file reloads to the dictionary when no
     * feed name holds a space or a line break.
     */
    method Write(feed: string, seconds: int)
      requires Valid()
      modifies this
      ensures Valid()
      ensures times == old(times)[feed := seconds]
      ensures names == Insert(old(names), feed)
      ensures file == Some(Serialize(names, times))
    {
      Set(feed, seconds);
      Save();
    }
  }

  /** What `Write` saves reloads, on an empty dictionary, to the dictionary it was saved from. */
  lemma WrittenFileReloads(names: seq<string>, times: map<string, int>)
    requires forall k :: 0 <= k < |names| ==> names[k] in times
    requires forall n :: n in times ==> n in names
    ensures (forall n :: n in times ==> Plain(n)) ==> LoadText(map[], Serialize(names, times)) == Ok(times)
  {
    if forall n :: n in times ==> Plain(n) {
      CheckpointRoundTrip(map[], names, times);
      assert map[] + times == times;
    }
  }
}
