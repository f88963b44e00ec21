/**
 * `parseCustomVariables`: the `custom-env-vars` input, one `KEY=VALUE`
 * declaration per line, turned into the environment of a new review app.
 */
module CustomVars {
  import opened Wrappers
  import opened Text

  type Vars = map<string, string>

  /**
   * The guard `key && value` applied to the pieces of `line.split("=")`:
   * the first piece and a second piece both exist and are non-empty. It
   * looks at the pieces before they are trimmed.
   */
  predicate IsKept(pieces: seq<string>) {
    |pieces| >= 2 && pieces[0] != "" && pieces[1] != ""
  }

  /**
   * What one line contributes: the trimmed first and second pieces when
   * the line is kept, nothing otherwise. Pieces after the second are
   * ignored, as the two-element destructuring does.
   */
  function LineEntry(line: string): Option<(string, string)>
  {
    var pieces := Split(line, '=');
    if IsKept(pieces) then Some((Trim(pieces[0]), Trim(pieces[1]))) else None
  }

  /** What each line contributes, in order. */
  function Entries(lines: seq<string>): (es: seq<Option<(string, string)>>)
    ensures |es| == |lines|
    ensures forall i :: 0 <= i < |lines| ==> es[i] == LineEntry(lines[i])
  {
    seq(|lines|, i requires 0 <= i < |lines| => LineEntry(lines[i]))
  }

  /** The map built by storing the entries in order, a later one winning. */
  function Store(es: seq<Option<(string, string)>>): Vars
  {
    if es == [] then map[]
    else
      var vars := Store(es[..|es| - 1]);
      match es[|es| - 1]
      case Some((k, v)) => vars[k := v]
      case None => vars
  }

  /** The map built from the lines of the input. */
  function ParseLines(lines: seq<string>): Vars
  {
    Store(Entries(lines))
  }

  /** The whole parser: an empty input yields the empty map without being split. */
  function Parse(input: string): Vars
  {
    if input == "" then map[] else ParseLines(Split(input, '\n'))
  }

  /** The parser as the program runs it: a loop that stores into a map. */
  method ParseCustomVariables(input: string) returns (vars: Vars)
    ensures vars == Parse(input)
  {
    vars := map[];
    if input != "" {
      var lines := Split(input, '\n');
      for i := 0 to |lines|
        invariant vars == ParseLines(lines[..i])
      {
        ParseLinesStep(lines, i);
        var pieces := Split(lines[i], '=');
        if IsKept(pieces) {
          vars := vars[Trim(pieces[0]) := Trim(pieces[1])];
        }
      }
      assert lines[..|lines|] == lines;
    }
  }

  /** Processing one more line stores its entry, if it has one. */
  lemma ParseLinesStep(lines: seq<string>, i: nat)
    requires i < |lines|
    ensures var pieces := Split(lines[i], '=');
      ParseLines(lines[..i + 1]) ==
        if IsKept(pieces) then ParseLines(lines[..i])[Trim(pieces[0]) := Trim(pieces[1])]
        else ParseLines(lines[..i])
  {
    var es := Entries(lines[..i + 1]);
    assert es[..i] == Entries(lines[..i]);
    assert es[i] == LineEntry(lines[i]);
  }

  /**
   * A line is kept exactly when its first `=` is neither its first nor its
   * last character and is not directly followed by another `=`; it then
   * stores the trimmed text before the first `=` under the trimmed text
   * between the first and the second `=` (or the end of the line).
   */
  lemma LineEntryByPosition(line: string)
    ensures var p := IndexOf(line, '=');
      LineEntry(line).Some? <==> 0 < p < |line| - 1 && line[p + 1] != '='
    ensures var p := IndexOf(line, '=');
      0 < p < |line| - 1 && line[p + 1] != '=' ==>
        var rest := line[p + 1..];
        LineEntry(line) == Some((Trim(line[..p]), Trim(rest[..IndexOf(rest, '=')])))
  {
    SplitFirstPieces(line, '=');
    var p := IndexOf(line, '=');
    if p < |line| {
      var rest := line[p + 1..];
      if rest != [] && rest[0] != '=' {
        assert IndexOf(rest, '=') > 0;
      }
    }
  }

  /** A line without `=` contributes nothing. */
  lemma NoSeparatorDropped(line: string)
    requires '=' !in line
    ensures LineEntry(line) == None
  {
    SplitNoSeparator(line, '=');
  }

  /**
   * `k=v` followed by nothing or by a further `=...` stores `trim(k) ->
   * trim(v)`: whatever follows a second `=` is dropped.
   */
  lemma KeyValueLine(k: string, v: string, tail: string)
    requires k != "" && v != "" && '=' !in k && '=' !in v
    requires tail == "" || tail[0] == '='
    ensures LineEntry(k + "=" + v + tail) == Some((Trim(k), Trim(v)))
  {
    var line := k + "=" + v + tail;
    var pieces := Split(line, '=');
    if tail == "" {
      SplitJoin([k, v], '=');
      assert Join([k, v], '=') == line;
    } else {
      assert v + tail == v + ['='] + tail[1..];
      SplitAfterPrefix(v, tail[1..], '=');
      assert line == k + ['='] + (v + tail);
      SplitAfterPrefix(k, v + tail, '=');
    }
    assert pieces[0] == k && pieces[1] == v;
    assert IsKept(pieces);
  }

  /**
   * The guard looks at the untrimmed pieces, so a key made only of
   * whitespace is kept and stored under the empty key.
   */
  lemma BlankKeyKept(k: string, v: string)
    requires k != "" && forall i :: 0 <= i < |k| ==> IsWhitespace(k[i])
    requires v != "" && '=' !in v
    ensures LineEntry(k + "=" + v) == Some(("", Trim(v)))
  {
    assert forall i :: 0 <= i < |k| ==> k[i] != '=';
    KeyValueLine(k, v, "");
    assert k + "=" + v + "" == k + "=" + v;
    TrimEmpty(k);
  }

  /** Whether entry `e` stores under key `k`. */
  predicate StoresKey(e: Option<(string, string)>, k: string) {
    e.Some? && e.value.0 == k
  }

  /** The keys of the map are exactly the keys of the entries that store. */
  lemma {:induction false} StoreKeys(es: seq<Option<(string, string)>>, k: string)
    ensures k in Store(es) ==> exists i :: 0 <= i < |es| && StoresKey(es[i], k)
    ensures forall i :: 0 <= i < |es| && StoresKey(es[i], k) ==> k in Store(es)
  {
    if es != [] {
      var n := |es| - 1;
      var front := es[..n];
      StoreKeys(front, k);
      if !StoresKey(es[n], k) {
        if k in Store(front) {
          var i :| 0 <= i < n && StoresKey(front[i], k);
          assert front[i] == es[i];
        }
        forall i | 0 <= i < |es| && StoresKey(es[i], k)
          ensures k in Store(es)
        {
          assert front[i] == es[i];
        }
      }
    }
  }

  /** Entry `i` stores `k -> v` and no later entry stores under `k`. */
  predicate LastStoreAt(es: seq<Option<(string, string)>>, i: int, k: string, v: string) {
    && 0 <= i < |es|
    && es[i] == Some((k, v))
    && forall j :: i < j < |es| ==> !StoresKey(es[j], k)
  }

  /** The value stored under `k` comes from the last entry that stores under `k`. */
  lemma {:induction false} StoreValueFromLast(es: seq<Option<(string, string)>>, k: string)
    requires k in Store(es)
    ensures exists i :: LastStoreAt(es, i, k, Store(es)[k])
  {
    var n := |es| - 1;
    var front := es[..n];
    var v := Store(es)[k];
    if StoresKey(es[n], k) {
      assert LastStoreAt(es, n, k, v);
    } else {
      StoreValueFromLast(front, k);
      var i :| LastStoreAt(front, i, k, v);
      assert front[i] == es[i];
      assert forall j :: i < j < n ==> front[j] == es[j];
      assert LastStoreAt(es, i, k, v);
    }
  }

  /** An entry that stores `k -> v` with no later entry storing under `k` decides `k`. */
  lemma {:induction false} StoreLastWins(es: seq<Option<(string, string)>>, i: int, k: string, v: string)
    requires LastStoreAt(es, i, k, v)
    ensures k in Store(es) && Store(es)[k] == v
  {
    var n := |es| - 1;
    var front := es[..n];
    if i < n {
      assert !StoresKey(es[n], k);
      assert front[i] == es[i];
      assert forall j :: i < j < n ==> front[j] == es[j];
      StoreLastWins(front, i, k, v);
    }
  }

  /** The keys of the parsed map are exactly the keys of the kept lines. */
  lemma ParseLinesKeys(lines: seq<string>, k: string)
    ensures k in ParseLines(lines) <==>
      exists i :: 0 <= i < |lines| && StoresKey(LineEntry(lines[i]), k)
  {
    var es := Entries(lines);
    StoreKeys(es, k);
    if k in ParseLines(lines) {
      var i :| 0 <= i < |es| && StoresKey(es[i], k);
      assert StoresKey(LineEntry(lines[i]), k);
    }
  }

  /**
   * Last write wins: `k` maps to `v` exactly when some kept line stores
   * `k -> v` and no later kept line has key `k`.
   */
  lemma ParseLinesLastWins(lines: seq<string>, k: string, v: string)
    ensures (k in ParseLines(lines) && ParseLines(lines)[k] == v) <==>
      exists i :: 0 <= i < |lines| && LineEntry(lines[i]) == Some((k, v)) &&
        forall j :: i < j < |lines| ==> !StoresKey(LineEntry(lines[j]), k)
  {
    var es := Entries(lines);
    if k in Store(es) && Store(es)[k] == v {
      StoreValueFromLast(es, k);
      var i :| LastStoreAt(es, i, k, v);
      assert LineEntry(lines[i]) == Some((k, v));
    }
    if exists i :: 0 <= i < |lines| && LineEntry(lines[i]) == Some((k, v)) &&
        forall j :: i < j < |lines| ==> !StoresKey(LineEntry(lines[j]), k) {
      var i :| 0 <= i < |lines| && LineEntry(lines[i]) == Some((k, v)) &&
        forall j :: i < j < |lines| ==> !StoresKey(LineEntry(lines[j]), k);
      assert LastStoreAt(es, i, k, v);
      StoreLastWins(es, i, k, v);
    }
  }

  /**
   * While the lines are processed the map only grows: every key present
   * after the first `i` lines is still present after the first `j`.
   */
  lemma {:induction false} ParseLinesGrows(lines: seq<string>, i: nat, j: nat)
    requires i <= j <= |lines|
    ensures ParseLines(lines[..i]).Keys <= ParseLines(lines[..j]).Keys
    decreases j - i
  {
    if i < j {
      ParseLinesGrows(lines, i, j - 1);
      assert Entries(lines[..j])[..j - 1] == Entries(lines[..j - 1]);
    }
  }

  /**
   * An empty input gives the empty map; the emptiness test in front of the
   * split changes nothing, since the single empty line it would see is
   * not kept.
   */
  lemma EmptyInput()
    ensures Parse("") == map[]
    ensures ParseLines(Split("", '\n')) == map[]
  {
    assert Split("", '=') == [""];
  }
}
