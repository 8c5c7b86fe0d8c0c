/**
 * The scope-minimisation demonstration's word-count pipeline: lines are
 * collected from standard input until "quit", each entry is lower-cased,
 * split at whitespace and cleaned down to ASCII letters and digits, the
 * cleaned words are counted in a map, and the words longer than three
 * characters are kept in input order.
 *
 * Standard input is a sequence of lines; reading past its end is the
 * NoSuchElementException that `Scanner.nextLine` throws.
 */
module WordCount {
  import opened Results
  import opened Int32
  import Text

  // ---------------------------------------------------------------------------
  // Recognising the "quit" line: `input.trim().equalsIgnoreCase("quit")`
  // ---------------------------------------------------------------------------

  /** `equalsIgnoreCase("quit")`: two chars match when they are equal or
      their upper cases or lower cases are; besides the ASCII capitals, DOTLESS
      SMALL I (upper case 'I') and CAPITAL I WITH DOT ABOVE (lower case 'i')
      match 'i'. */
  predicate IsQuitWord(t: string)
  {
    |t| == 4 && (t[0] == 'q' || t[0] == 'Q') && (t[1] == 'u' || t[1] == 'U') &&
    (t[2] == 'i' || t[2] == 'I' || t[2] == '\U{0131}' || t[2] == '\U{0130}') &&
    (t[3] == 't' || t[3] == 'T')
  }

  /** `input.trim().equalsIgnoreCase("quit")`. */
  predicate IsQuit(line: string)
  {
    IsQuitWord(Text.Trim(line))
  }

  /** The index of the first quit line, or the number of lines if there is none. */
  function FirstQuit(lines: seq<string>): (q: nat)
    ensures q <= |lines|
    ensures forall k :: 0 <= k < q ==> !IsQuit(lines[k])
    ensures q < |lines| ==> IsQuit(lines[q])
  {
    if lines == [] || IsQuit(lines[0]) then 0 else 1 + FirstQuit(lines[1..])
  }

  /** Reading on past a line that is not the quit line stays before it. */
  lemma FirstQuitStep(lines: seq<string>, i: nat)
    requires i <= FirstQuit(lines) && i < |lines| && !IsQuit(lines[i])
    ensures i + 1 <= FirstQuit(lines)
  {
  }

  /** The loops stop exactly at the first quit line or the end of input. */
  lemma FirstQuitExit(lines: seq<string>, i: nat)
    requires i <= FirstQuit(lines) && (i == |lines| || IsQuit(lines[i]))
    ensures i == FirstQuit(lines)
  {
  }

  /** The trimmed form of every line that is not blank, in order. */
  function KeptLines(lines: seq<string>): seq<string>
  {
    if lines == [] then []
    else
      var t := Text.Trim(lines[|lines| - 1]);
      KeptLines(lines[..|lines| - 1]) + (if t != [] then [t] else [])
  }

  lemma KeptLinesSnoc(lines: seq<string>, line: string)
    ensures KeptLines(lines + [line]) ==
              KeptLines(lines) + (if Text.Trim(line) != [] then [Text.Trim(line)] else [])
  {
    assert (lines + [line])[..|lines|] == lines;
  }

  /** Every kept line is non-empty, already trimmed, and the trim of a line of the input. */
  lemma {:induction false} KeptLinesTrimmed(lines: seq<string>)
    ensures |KeptLines(lines)| <= |lines|
    ensures forall i :: 0 <= i < |KeptLines(lines)| ==>
              KeptLines(lines)[i] != [] && Text.Trim(KeptLines(lines)[i]) == KeptLines(lines)[i]
    ensures forall i :: 0 <= i < |KeptLines(lines)| ==> KeptLines(lines)[i] in TrimAll(lines)
  {
    if lines != [] {
      var init, last := lines[..|lines| - 1], lines[|lines| - 1];
      assert lines == init + [last];
      KeptLinesTrimmed(init);
      KeptLinesSnoc(init, last);
      Text.TrimIdempotent(last);
    }
  }

  /** The trim of every line, in order. */
  function TrimAll(lines: seq<string>): (r: seq<string>)
    ensures |r| == |lines|
  {
    if lines == [] then [] else TrimAll(lines[..|lines| - 1]) + [Text.Trim(lines[|lines| - 1])]
  }

  /** `GoodScopeExample.collectUserInput`: keeps the trimmed non-blank lines up
      to the first quit line, which is not kept; at the end of input the
      exception is caught and what was collected is returned. */
  method CollectUserInput(input: seq<string>) returns (data: seq<string>)
    ensures data == KeptLines(input[..FirstQuit(input)])
  {
    data := [];
    var i := 0;
    while i < |input| && !IsQuit(input[i])
      invariant 0 <= i <= FirstQuit(input)
      invariant data == KeptLines(input[..i])
    {
      var t := Text.Trim(input[i]);
      assert input[..i + 1] == input[..i] + [input[i]];
      KeptLinesSnoc(input[..i], input[i]);
      FirstQuitStep(input, i);
      if t != [] {
        data := data + [t];
      }
      i := i + 1;
    }
    FirstQuitExit(input, i);
  }

  // ---------------------------------------------------------------------------
  // Cleaning: `toLowerCase()`, `split("\\s+")`, `replaceAll("[^a-zA-Z0-9]", "")`
  // ---------------------------------------------------------------------------

  /** The chars of the regular-expression class `\s`. */
  const WHITESPACE: set<char> := {' ', '\t', '\n', '\U{000B}', '\U{000C}', '\r'}

  /** `String.toLowerCase` as far as it can produce ASCII letters and digits:
      ASCII capitals, KELVIN SIGN (to 'k') and CAPITAL I WITH DOT ABOVE (to
      'i' and a combining dot); every other char keeps a non-ASCII or
      non-alphanumeric image, which cleaning removes either way. */
  function LowerChar(c: char): string
  {
    if 'A' <= c <= 'Z' then [(c as int + 32) as char]
    else if c == '\U{212A}' then "k"
    else if c == '\U{0130}' then "i\U{0307}"
    else [c]
  }

  function Lower(s: string): string
  {
    if s == [] then [] else LowerChar(s[0]) + Lower(s[1..])
  }

  predicate IsAsciiAlnum(c: char)
  {
    'a' <= c <= 'z' || 'A' <= c <= 'Z' || '0' <= c <= '9'
  }

  predicate IsLowerAlnum(c: char)
  {
    'a' <= c <= 'z' || '0' <= c <= '9'
  }

  /** `replaceAll("[^a-zA-Z0-9]", "")`. */
  function Clean(w: string): string
  {
    if w == [] then [] else (if IsAsciiAlnum(w[0]) then [w[0]] else []) + Clean(w[1..])
  }

  /** The non-empty cleaned pieces, in order. */
  function CleanWords(pieces: seq<string>): seq<string>
  {
    if pieces == [] then []
    else (if Clean(pieces[0]) != [] then [Clean(pieces[0])] else []) + CleanWords(pieces[1..])
  }

  /** The words one entry contributes. */
  function EntryWords(entry: string): seq<string>
  {
    CleanWords(Text.Split(Lower(entry), WHITESPACE))
  }

  /** The words of all entries, in order. */
  function AllWords(entries: seq<string>): seq<string>
  {
    if entries == [] then [] else EntryWords(entries[0]) + AllWords(entries[1..])
  }

  lemma {:induction false} LowerAppend(a: string, b: string)
    ensures Lower(a + b) == Lower(a) + Lower(b)
  {
    if a == [] {
      assert a + b == b;
    } else {
      assert (a + b)[0] == a[0] && (a + b)[1..] == a[1..] + b;
      LowerAppend(a[1..], b);
    }
  }

  lemma {:induction false} CleanAppend(a: string, b: string)
    ensures Clean(a + b) == Clean(a) + Clean(b)
  {
    if a == [] {
      assert a + b == b;
    } else {
      assert (a + b)[0] == a[0] && (a + b)[1..] == a[1..] + b;
      CleanAppend(a[1..], b);
    }
  }

  lemma CleanWordsSingleton(p: string)
    ensures CleanWords([p]) == if Clean(p) != [] then [Clean(p)] else []
  {
    assert [p][1..] == [];
  }

  lemma {:induction false} CleanWordsAppend(a: seq<string>, b: seq<string>)
    ensures CleanWords(a + b) == CleanWords(a) + CleanWords(b)
  {
    if a == [] {
      assert a + b == b;
    } else {
      assert (a + b)[0] == a[0] && (a + b)[1..] == a[1..] + b;
      CleanWordsAppend(a[1..], b);
    }
  }

  lemma {:induction false} AllWordsAppend(a: seq<string>, b: seq<string>)
    ensures AllWords(a + b) == AllWords(a) + AllWords(b)
  {
    if a == [] {
      assert a + b == b;
    } else {
      assert (a + b)[0] == a[0] && (a + b)[1..] == a[1..] + b;
      AllWordsAppend(a[1..], b);
    }
  }

  /** The cleaned words are exactly what the loops see when they walk the
      pieces one by one. */
  lemma CleanWordsSnoc(ps: seq<string>, p: string)
    ensures CleanWords(ps + [p]) == CleanWords(ps) + (if Clean(p) != [] then [Clean(p)] else [])
  {
    CleanWordsAppend(ps, [p]);
    CleanWordsSingleton(p);
  }

  lemma AllWordsSnoc(es: seq<string>, e: string)
    ensures AllWords(es + [e]) == AllWords(es) + EntryWords(e)
  {
    AllWordsAppend(es, [e]);
    assert [e][1..] == [];
  }

  /** A cleaned word consists of letters and digits only, each taken from the word. */
  lemma {:induction false} CleanChars(w: string)
    ensures forall k :: 0 <= k < |Clean(w)| ==> IsAsciiAlnum(Clean(w)[k]) && Clean(w)[k] in w
  {
    if w != [] {
      CleanChars(w[1..]);
      var head := if IsAsciiAlnum(w[0]) then [w[0]] else [];
      assert Clean(w) == head + Clean(w[1..]);
      forall k | 0 <= k < |Clean(w)| ensures Clean(w)[k] in w {
        if IsAsciiAlnum(w[0]) && k == 0 {
          assert Clean(w)[k] == w[0];
        } else {
          assert Clean(w)[k] == Clean(w[1..])[k - |head|];
          assert Clean(w)[k] in w[1..];
        }
      }
    }
  }

  /** A word with no letter or digit cleans to nothing. */
  lemma {:induction false} CleanOfNonAlnum(w: string)
    requires forall k :: 0 <= k < |w| ==> !IsAsciiAlnum(w[k])
    ensures Clean(w) == []
  {
    if w != [] {
      CleanOfNonAlnum(w[1..]);
    }
  }

  /** A word without trimmable chars is its own trim. */
  lemma TrimOfUntrimmable(s: string)
    requires forall k :: 0 <= k < |s| ==> !Text.IsTrimmable(s[k])
    ensures Text.Trim(s) == s
  {
    if s != [] {
      assert !Text.IsTrimmable(s[0]) && !Text.IsTrimmable(s[|s| - 1]);
    }
    assert Text.TrimStart(s) == s;
  }

  /** The `.trim()` that `processData` applies after cleaning changes nothing. */
  lemma CleanIsTrimmed(w: string)
    ensures Text.Trim(Clean(w)) == Clean(w)
  {
    CleanChars(w);
    TrimOfUntrimmable(Clean(w));
  }

  /** Every char of a piece of a split is a char of the split string. */
  lemma {:induction false} SplitChars(s: string, seps: set<char>)
    ensures forall i, k :: 0 <= i < |Text.Split(s, seps)| && 0 <= k < |Text.Split(s, seps)[i]| ==>
              Text.Split(s, seps)[i][k] in s
  {
    if s != [] {
      SplitChars(s[1..], seps);
      var rest := Text.Split(s[1..], seps);
      var r := Text.Split(s, seps);
      forall i, k | 0 <= i < |r| && 0 <= k < |r[i]| ensures r[i][k] in s {
        if s[0] in seps {
          assert r == [""] + rest;
          if i > 0 {
            assert r[i] == rest[i - 1];
            assert r[i][k] in s[1..];
          }
        } else if i == 0 && k == 0 {
          assert r[i][k] == s[0];
        } else if i == 0 {
          assert r[0] == [s[0]] + rest[0];
          assert r[0][k] == rest[0][k - 1];
          assert r[i][k] in s[1..];
        } else {
          assert r[i] == rest[i];
          assert r[i][k] in s[1..];
        }
      }
    }
  }

  /** Lower-casing leaves no ASCII capital behind. */
  lemma {:induction false} LowerHasNoCapitals(s: string)
    ensures forall k :: 0 <= k < |Lower(s)| ==> !('A' <= Lower(s)[k] <= 'Z')
  {
    if s != [] {
      LowerHasNoCapitals(s[1..]);
      var head := LowerChar(s[0]);
      assert Lower(s) == head + Lower(s[1..]);
      forall k | 0 <= k < |Lower(s)| ensures !('A' <= Lower(s)[k] <= 'Z') {
        if k >= |head| {
          assert Lower(s)[k] == Lower(s[1..])[k - |head|];
        }
      }
    }
  }

  predicate IsWord(w: string)
  {
    w != [] && forall k :: 0 <= k < |w| ==> IsLowerAlnum(w[k])
  }

  /** Every word of an entry is non-empty and made of a-z and 0-9 only. */
  lemma EntryWordsAreLowerAlnum(entry: string)
    ensures forall i :: 0 <= i < |EntryWords(entry)| ==> IsWord(EntryWords(entry)[i])
  {
    var low := Lower(entry);
    LowerHasNoCapitals(entry);
    SplitChars(low, WHITESPACE);
    CleanWordsLowerAlnum(Text.Split(low, WHITESPACE), low);
  }

  lemma {:induction false} CleanWordsLowerAlnum(ps: seq<string>, low: string)
    requires forall k :: 0 <= k < |low| ==> !('A' <= low[k] <= 'Z')
    requires forall i, k :: 0 <= i < |ps| && 0 <= k < |ps[i]| ==> ps[i][k] in low
    ensures forall i :: 0 <= i < |CleanWords(ps)| ==> IsWord(CleanWords(ps)[i])
  {
    if ps != [] {
      CleanWordsLowerAlnum(ps[1..], low);
      var w := ps[0];
      CleanChars(w);
      forall k | 0 <= k < |Clean(w)| ensures IsLowerAlnum(Clean(w)[k]) {
        var j :| 0 <= j < |w| && Clean(w)[k] == w[j];
        assert w[j] == ps[0][j];
      }
      forall i, k | 0 <= i < |ps[1..]| && 0 <= k < |ps[1..][i]| ensures ps[1..][i][k] in low {
        assert ps[1..][i] == ps[i + 1];
      }
    }
  }

  /** Every word of every entry is non-empty and made of a-z and 0-9 only. */
  lemma {:induction false} AllWordsAreLowerAlnum(entries: seq<string>)
    ensures forall i :: 0 <= i < |AllWords(entries)| ==> IsWord(AllWords(entries)[i])
  {
    if entries != [] {
      EntryWordsAreLowerAlnum(entries[0]);
      AllWordsAreLowerAlnum(entries[1..]);
    }
  }

  // ---------------------------------------------------------------------------
  // Trimming an entry does not change its words
  // ---------------------------------------------------------------------------

  /** A non-alphanumeric char before the text does not change its words. */
  lemma PrependNonAlnum(c: char, x: string)
    requires !IsAsciiAlnum(c)
    ensures CleanWords(Text.Split([c] + x, WHITESPACE)) == CleanWords(Text.Split(x, WHITESPACE))
  {
    var p := Text.Split(x, WHITESPACE);
    assert ([c] + x)[1..] == x && ([c] + x)[0] == c;
    CleanWordsSingleton("");
    if c in WHITESPACE {
      assert Text.Split([c] + x, WHITESPACE) == [""] + p;
      CleanWordsAppend([""], p);
      assert CleanWords([""]) == [];
      assert CleanWords([""] + p) == CleanWords(p);
    } else {
      assert Text.Split([c] + x, WHITESPACE) == [[c] + p[0]] + p[1..];
      CleanAppend([c], p[0]);
      assert Clean([c]) == [] by { assert [c][1..] == []; }
      assert Clean([c] + p[0]) == Clean(p[0]);
      CleanWordsSingleton([c] + p[0]);
      CleanWordsSingleton(p[0]);
      assert CleanWords([[c] + p[0]]) == CleanWords([p[0]]);
      CleanWordsAppend([[c] + p[0]], p[1..]);
      CleanWordsAppend([p[0]], p[1..]);
      assert [p[0]] + p[1..] == p;
    }
  }

  /** A non-alphanumeric char after the text does not change its words. */
  lemma AppendNonAlnum(x: string, c: char)
    requires !IsAsciiAlnum(c)
    ensures CleanWords(Text.Split(x + [c], WHITESPACE)) == CleanWords(Text.Split(x, WHITESPACE))
  {
    var p := Text.Split(x, WHITESPACE);
    Text.SplitSnoc(x, c, WHITESPACE);
    CleanWordsSingleton("");
    if c in WHITESPACE {
      CleanWordsAppend(p, [""]);
      assert CleanWords([""]) == [];
      assert CleanWords(p + [""]) == CleanWords(p);
    } else {
      var init, last := p[..|p| - 1], p[|p| - 1];
      CleanAppend(last, [c]);
      assert Clean([c]) == [] by { assert [c][1..] == []; }
      assert Clean(last + [c]) == Clean(last);
      CleanWordsSingleton(last + [c]);
      CleanWordsSingleton(last);
      assert CleanWords([last + [c]]) == CleanWords([last]);
      CleanWordsAppend(init, [last + [c]]);
      CleanWordsAppend(init, [last]);
      assert init + [last] == p;
    }
  }

  /** A trimmable char lower-cases to itself and is no letter or digit. */
  lemma LowerOfTrimmable(c: char)
    requires Text.IsTrimmable(c)
    ensures Lower([c]) == [c] && !IsAsciiAlnum(c)
  {
    assert [c][1..] == [];
  }

  lemma {:induction false} TrimStartKeepsWords(s: string)
    ensures EntryWords(Text.TrimStart(s)) == EntryWords(s)
  {
    if s != [] && Text.IsTrimmable(s[0]) {
      var c, rest := s[0], s[1..];
      TrimStartKeepsWords(rest);
      assert Text.TrimStart(s) == Text.TrimStart(rest);
      assert s == [c] + rest;
      LowerAppend([c], rest);
      LowerOfTrimmable(c);
      assert Lower(s) == [c] + Lower(rest);
      PrependNonAlnum(c, Lower(rest));
    }
  }

  lemma {:induction false} TrimEndKeepsWords(s: string)
    ensures EntryWords(Text.TrimEnd(s)) == EntryWords(s)
  {
    if s != [] && Text.IsTrimmable(s[|s| - 1]) {
      var init, c := s[..|s| - 1], s[|s| - 1];
      TrimEndKeepsWords(init);
      assert Text.TrimEnd(s) == Text.TrimEnd(init);
      assert s == init + [c];
      LowerAppend(init, [c]);
      LowerOfTrimmable(c);
      assert Lower(s) == Lower(init) + [c];
      AppendNonAlnum(Lower(init), c);
    }
  }

  /** An entry and its trimmed form have the same words, which is why the
      poor-scope loop, which splits the untrimmed line, counts what
      `processData` counts. */
  lemma TrimKeepsWords(s: string)
    ensures EntryWords(Text.Trim(s)) == EntryWords(s)
  {
    TrimStartKeepsWords(s);
    TrimEndKeepsWords(Text.TrimStart(s));
  }

  // ---------------------------------------------------------------------------
  // Counting
  // ---------------------------------------------------------------------------

  function Get(m: map<string, int>, w: string): int
  {
    if w in m then m[w] else 0
  }

  /** `wordCount.put(w, wordCount.getOrDefault(w, 0) + 1)` for every word in turn. */
  function Counts(ws: seq<string>): map<string, int>
  {
    if ws == [] then map[]
    else
      var m := Counts(ws[..|ws| - 1]);
      m[ws[|ws| - 1] := Get(m, ws[|ws| - 1]) + 1]
  }

  function Occurrences(ws: seq<string>, w: string): nat
  {
    if ws == [] then 0
    else Occurrences(ws[..|ws| - 1], w) + (if ws[|ws| - 1] == w then 1 else 0)
  }

  /** The words longer than three chars, in order, repeats included. */
  function LongWords(ws: seq<string>): seq<string>
  {
    if ws == [] then []
    else LongWords(ws[..|ws| - 1]) + (if |ws[|ws| - 1]| > 3 then [ws[|ws| - 1]] else [])
  }

  /** The map has a key for exactly the words that occur, and holds the
      number of times each occurs, at least 1. */
  lemma {:induction false} CountsAreOccurrences(ws: seq<string>)
    ensures forall w :: w in Counts(ws) <==> w in ws
    ensures forall w :: Get(Counts(ws), w) == Occurrences(ws, w)
    ensures forall w :: w in Counts(ws) ==> Counts(ws)[w] == Occurrences(ws, w) >= 1
  {
    if ws != [] {
      var init, last := ws[..|ws| - 1], ws[|ws| - 1];
      CountsAreOccurrences(init);
      assert ws == init + [last];
      forall w ensures w in ws <==> w in init || w == last {
        if w in ws {
          var k :| 0 <= k < |ws| && ws[k] == w;
          if k < |init| { assert init[k] == w; }
        }
      }
    }
  }

  /** The long words are exactly the counted words longer than three chars. */
  lemma {:induction false} LongWordsAreCounted(ws: seq<string>)
    ensures forall i :: 0 <= i < |LongWords(ws)| ==> |LongWords(ws)[i]| > 3 && LongWords(ws)[i] in ws
    ensures forall w :: w in ws && |w| > 3 ==> w in LongWords(ws)
  {
    if ws != [] {
      var init := ws[..|ws| - 1];
      LongWordsAreCounted(init);
      assert ws == init + [ws[|ws| - 1]];
      forall w | w in ws && |w| > 3 ensures w in LongWords(ws) {
        var k :| 0 <= k < |ws| && ws[k] == w;
        if k < |init| { assert init[k] == w; }
      }
    }
  }

  predicate Distinct(s: seq<string>)
  {
    forall i, j :: 0 <= i < j < |s| ==> s[i] != s[j]
  }

  /** The sum of the map's values over the keys listed in `keys`
      (a key not in the map adds 0). */
  function SumOver(keys: seq<string>, m: map<string, int>): int
  {
    if keys == [] then 0 else Get(m, keys[0]) + SumOver(keys[1..], m)
  }

  lemma {:induction false} SumOverUpdate(keys: seq<string>, m: map<string, int>, w: string, v: int)
    requires Distinct(keys) && w in keys
    ensures SumOver(keys, m[w := v]) == SumOver(keys, m) - Get(m, w) + v
  {
    if keys[0] == w {
      SumOverAbsent(keys[1..], m, w, v);
    } else {
      SumOverUpdate(keys[1..], m, w, v);
    }
  }

  lemma {:induction false} SumOverAbsent(keys: seq<string>, m: map<string, int>, w: string, v: int)
    requires w !in keys
    ensures SumOver(keys, m[w := v]) == SumOver(keys, m)
  {
    if keys != [] {
      SumOverAbsent(keys[1..], m, w, v);
    }
  }

  /** Summed over any duplicate-free listing of its keys (the map's entry
      set in whatever order it iterates), the counts add up to the number
      of words. */
  lemma {:induction false} CountsSumToWords(ws: seq<string>, keys: seq<string>)
    requires Distinct(keys)
    requires forall w :: w in Counts(ws) ==> w in keys
    ensures SumOver(keys, Counts(ws)) == |ws|
  {
    if ws == [] {
      SumOverEmpty(keys);
    } else {
      var init, w := ws[..|ws| - 1], ws[|ws| - 1];
      var m := Counts(init);
      assert w in Counts(ws);
      CountsSumToWords(init, keys);
      SumOverUpdate(keys, m, w, Get(m, w) + 1);
    }
  }

  lemma {:induction false} SumOverEmpty(keys: seq<string>)
    ensures SumOver(keys, map[]) == 0
  {
    if keys != [] {
      SumOverEmpty(keys[1..]);
    }
  }

  // ---------------------------------------------------------------------------
  // processData and the poor-scope loop
  // ---------------------------------------------------------------------------

  datatype ProcessingResult = ProcessingResult(totalEntries: int, wordCount: map<string, int>, filteredWords: seq<string>)

  /** `GoodScopeExample.processData`. */
  method ProcessData(inputData: seq<string>) returns (result: ProcessingResult)
    ensures result.totalEntries == |inputData|
    ensures result.wordCount == Counts(AllWords(inputData))
    ensures result.filteredWords == LongWords(AllWords(inputData))
  {
    var wordCount: map<string, int> := map[];
    var filteredWords: seq<string> := [];
    for i := 0 to |inputData|
      invariant wordCount == Counts(AllWords(inputData[..i]))
      invariant filteredWords == LongWords(AllWords(inputData[..i]))
    {
      var words := Text.Split(Lower(inputData[i]), WHITESPACE);
      wordCount, filteredWords := TallyEntry(words, wordCount, filteredWords, AllWords(inputData[..i]));
      assert inputData[..i + 1] == inputData[..i] + [inputData[i]];
      AllWordsSnoc(inputData[..i], inputData[i]);
    }
    assert inputData[..|inputData|] == inputData;
    return ProcessingResult(|inputData|, wordCount, filteredWords);
  }

  /** The inner loop of `processData` over one entry's pieces: each piece is
      cleaned and trimmed, and a non-empty result is counted and, when
      longer than three chars, appended to the filtered list. */
  method TallyEntry(words: seq<string>, wordCount0: map<string, int>, filteredWords0: seq<string>,
                    ghost before: seq<string>)
    returns (wordCount: map<string, int>, filteredWords: seq<string>)
    requires wordCount0 == Counts(before) && filteredWords0 == LongWords(before)
    ensures wordCount == Counts(before + CleanWords(words))
    ensures filteredWords == LongWords(before + CleanWords(words))
  {
    wordCount, filteredWords := wordCount0, filteredWords0;
    assert before + CleanWords(words[..0]) == before;
    for j := 0 to |words|
      invariant wordCount == Counts(before + CleanWords(words[..j]))
      invariant filteredWords == LongWords(before + CleanWords(words[..j]))
    {
      var cleanWord := Text.Trim(Clean(words[j]));
      CleanIsTrimmed(words[j]);
      StepWord(before, words, j);
      if cleanWord != [] {
        CountOneMore(before + CleanWords(words[..j]), cleanWord);
        wordCount := wordCount[cleanWord := Get(wordCount, cleanWord) + 1];
        if |cleanWord| > 3 {
          filteredWords := filteredWords + [cleanWord];
        }
      }
    }
    assert words[..|words|] == words;
  }

  /** One piece more for the inner loops: counting and filtering grow by the
      piece's cleaned word, if it has one. */
  lemma StepWord(before: seq<string>, words: seq<string>, j: nat)
    requires j < |words|
    ensures Clean(words[j]) == [] ==>
              before + CleanWords(words[..j + 1]) == before + CleanWords(words[..j])
    ensures Clean(words[j]) != [] ==>
              before + CleanWords(words[..j + 1]) == before + CleanWords(words[..j]) + [Clean(words[j])]
  {
    assert words[..j + 1] == words[..j] + [words[j]];
    CleanWordsSnoc(words[..j], words[j]);
  }

  /** Counting and filtering one word more. */
  lemma CountOneMore(done: seq<string>, w: string)
    ensures Counts(done + [w]) == Counts(done)[w := Get(Counts(done), w) + 1]
    ensures LongWords(done + [w]) == LongWords(done) + (if |w| > 3 then [w] else [])
  {
    assert (done + [w])[..|done|] == done;
  }

  /** What `processData` promises about its result: the keys are the
      cleaned words, each counted as often as it occurs; the filtered list
      holds the counted words longer than three chars; the counts add up
      to the number of words, whatever order the entries are listed in. */
  lemma ProcessingResultFacts(entries: seq<string>, keys: seq<string>)
    requires Distinct(keys) && forall w :: w in Counts(AllWords(entries)) ==> w in keys
    ensures forall w :: w in Counts(AllWords(entries)) ==>
              IsWord(w) && Counts(AllWords(entries))[w] == Occurrences(AllWords(entries), w) >= 1
    ensures forall i :: 0 <= i < |LongWords(AllWords(entries))| ==>
              |LongWords(AllWords(entries))[i]| > 3 && LongWords(AllWords(entries))[i] in Counts(AllWords(entries))
    ensures SumOver(keys, Counts(AllWords(entries))) == |AllWords(entries)|
  {
    var ws := AllWords(entries);
    AllWordsAreLowerAlnum(entries);
    CountsAreOccurrences(ws);
    LongWordsAreCounted(ws);
    CountsSumToWords(ws, keys);
    forall w | w in Counts(ws) ensures IsWord(w) {
      var k :| 0 <= k < |ws| && ws[k] == w;
    }
  }

  /** What the poor-scope example accumulates, and whether it reaches the
      lines that write the totals (only when a quit line ends the input; at
      the end of input `nextLine` throws and the catch skips them). */
  datatype PoorScopeResult = PoorScopeResult(allData: seq<string>, totalCount: int,
                                             wordCount: map<string, int>, filteredData: seq<string>,
                                             written: bool)

  /** The non-blank lines as read, untrimmed. */
  function NonBlankLines(lines: seq<string>): seq<string>
  {
    if lines == [] then []
    else NonBlankLines(lines[..|lines| - 1]) +
         (if Text.Trim(lines[|lines| - 1]) != [] then [lines[|lines| - 1]] else [])
  }

  /** `PoorScopeExample.processUserData`'s loop: counts each non-blank line as
      read, splitting the untrimmed line. */
  method PoorScopeProcess(input: seq<string>) returns (result: PoorScopeResult)
    ensures result.allData == NonBlankLines(input[..FirstQuit(input)])
    ensures result.totalCount == |result.allData| == |KeptLines(input[..FirstQuit(input)])|
    ensures result.wordCount == Counts(AllWords(KeptLines(input[..FirstQuit(input)])))
    ensures result.filteredData == LongWords(AllWords(KeptLines(input[..FirstQuit(input)])))
    ensures result.written <==> FirstQuit(input) < |input|
  {
    var allData: seq<string> := [];
    var totalCount := 0;
    var wordCount: map<string, int> := map[];
    var filteredData: seq<string> := [];
    var i := 0;
    while i < |input| && !IsQuit(input[i])
      invariant 0 <= i <= FirstQuit(input)
      invariant allData == NonBlankLines(input[..i]) && totalCount == |allData| == |KeptLines(input[..i])|
      invariant wordCount == Counts(AllWords(KeptLines(input[..i])))
      invariant filteredData == LongWords(AllWords(KeptLines(input[..i])))
    {
      var userInput := input[i];
      PoorStepLine(input, i);
      FirstQuitStep(input, i);
      if Text.Trim(userInput) != [] {
        allData := allData + [userInput];
        totalCount := totalCount + 1;
        var words := Text.Split(Lower(userInput), WHITESPACE);
        wordCount, filteredData := PoorTallyLine(words, wordCount, filteredData, AllWords(KeptLines(input[..i])));
      } else {
        assert KeptLines(input[..i + 1]) == KeptLines(input[..i]);
      }
      i := i + 1;
    }
    FirstQuitExit(input, i);
    return PoorScopeResult(allData, totalCount, wordCount, filteredData, i < |input|);
  }

  /** The inner loop of the poor-scope example over one line's pieces: a
      piece whose trim is empty is skipped before cleaning, a non-empty
      cleaned piece is counted and, when longer than three chars, appended. */
  method PoorTallyLine(words: seq<string>, wordCount0: map<string, int>, filteredData0: seq<string>,
                       ghost before: seq<string>)
    returns (wordCount: map<string, int>, filteredData: seq<string>)
    requires wordCount0 == Counts(before) && filteredData0 == LongWords(before)
    ensures wordCount == Counts(before + CleanWords(words))
    ensures filteredData == LongWords(before + CleanWords(words))
  {
    wordCount, filteredData := wordCount0, filteredData0;
    assert before + CleanWords(words[..0]) == before;
    for j := 0 to |words|
      invariant wordCount == Counts(before + CleanWords(words[..j]))
      invariant filteredData == LongWords(before + CleanWords(words[..j]))
    {
      var word := words[j];
      StepWord(before, words, j);
      if Text.Trim(word) != [] {
        var cleanWord := Clean(word);
        if cleanWord != [] {
          CountOneMore(before + CleanWords(words[..j]), cleanWord);
          wordCount := wordCount[cleanWord := Get(wordCount, cleanWord) + 1];
          if |cleanWord| > 3 {
            filteredData := filteredData + [cleanWord];
          }
        }
      } else {
        BlankPieceCleansToNothing(word);
      }
    }
    assert words[..|words|] == words;
  }

  /** One line more for the poor-scope loop. */
  lemma PoorStepLine(input: seq<string>, i: nat)
    requires i < |input|
    ensures var line := input[i];
            var t := Text.Trim(line);
            NonBlankLines(input[..i + 1]) == NonBlankLines(input[..i]) + (if t != [] then [line] else []) &&
            KeptLines(input[..i + 1]) == KeptLines(input[..i]) + (if t != [] then [t] else []) &&
            (t != [] ==> AllWords(KeptLines(input[..i + 1])) == AllWords(KeptLines(input[..i])) + EntryWords(line))
  {
    var line := input[i];
    assert input[..i + 1] == input[..i] + [line];
    assert (input[..i] + [line])[..i] == input[..i];
    KeptLinesSnoc(input[..i], line);
    if Text.Trim(line) != [] {
      TrimKeepsWords(line);
      AllWordsSnoc(KeptLines(input[..i]), Text.Trim(line));
    }
  }

  /** The poor-scope guard `!word.trim().isEmpty()` only skips pieces that
      cleaning would empty anyway. */
  lemma BlankPieceCleansToNothing(w: string)
    requires Text.Trim(w) == []
    ensures Clean(w) == []
  {
    Text.TrimEmptyIff(w);
    CleanOfNonAlnum(w);
  }

  // ---------------------------------------------------------------------------
  // main: choosing an example
  // ---------------------------------------------------------------------------

  datatype Example = PoorScope | GoodScope | ThreadSafe | NoExample

  /** The first code point of each run of ten consecutive decimal digits
      (Unicode general category Nd) in the Basic Multilingual Plane: ASCII,
      Arabic-Indic, Extended Arabic-Indic, NKo, Devanagari, Bengali,
      Gurmukhi, Gujarati, Oriya, Tamil, Telugu, Kannada, Malayalam, Sinhala
      Lith, Thai, Lao, Tibetan, Myanmar, Myanmar Shan, Khmer, Mongolian,
      Limbu, New Tai Lue, Tai Tham Hora, Tai Tham, Balinese, Sundanese,
      Lepcha, Ol Chiki, Vai, Saurashtra, Kayah Li, Javanese, Myanmar Tai
      Laing, Cham, Meetei Mayek and Fullwidth. */
  const DIGIT_ZEROS: seq<int> := [
    0x0030, 0x0660, 0x06F0, 0x07C0, 0x0966, 0x09E6, 0x0A66, 0x0AE6, 0x0B66, 0x0BE6,
    0x0C66, 0x0CE6, 0x0D66, 0x0DE6, 0x0E50, 0x0ED0, 0x0F20, 0x1040, 0x1090, 0x17E0,
    0x1810, 0x1946, 0x19D0, 0x1A80, 0x1A90, 0x1B50, 0x1BB0, 0x1C40, 0x1C50, 0xA620,
    0xA8D0, 0xA900, 0xA9D0, 0xA9F0, 0xAA50, 0xABF0, 0xFF10]

  function DigitFrom(c: char, i: nat): (r: Option<nat>)
    requires i <= |DIGIT_ZEROS|
    ensures r.Some? ==> r.value < 10
    decreases |DIGIT_ZEROS| - i
  {
    if i == |DIGIT_ZEROS| then None
    else if DIGIT_ZEROS[i] <= c as int < DIGIT_ZEROS[i] + 10 then Some(c as int - DIGIT_ZEROS[i])
    else DigitFrom(c, i + 1)
  }

  /** `Character.digit(c, 10)` on a Java `char`: the value of a decimal
      digit of any script, `None` for the -1 of every other char. A char
      outside the Basic Multilingual Plane is two surrogate code units in
      Java, neither of them a digit. */
  function JavaDigit(c: char): (r: Option<nat>)
    ensures r.Some? ==> r.value < 10
    ensures '0' <= c <= '9' ==> r == Some(c as int - '0' as int)
  {
    DigitFrom(c, 0)
  }

  /** A char is a digit exactly when it lies in one of the runs of ten, and
      its value is its distance from that run's zero. */
  lemma {:induction false} DigitFromRuns(c: char, i: nat)
    requires i <= |DIGIT_ZEROS|
    ensures DigitFrom(c, i).Some? <==>
              exists j :: i <= j < |DIGIT_ZEROS| && DIGIT_ZEROS[j] <= c as int < DIGIT_ZEROS[j] + 10
    ensures DigitFrom(c, i).Some? ==>
              exists j :: i <= j < |DIGIT_ZEROS| && DigitFrom(c, i).value == c as int - DIGIT_ZEROS[j]
    decreases |DIGIT_ZEROS| - i
  {
    if i < |DIGIT_ZEROS| {
      DigitFromRuns(c, i + 1);
    }
  }

  predicate IsJavaDigit(c: char)
  {
    JavaDigit(c).Some?
  }

  /** The number a string of decimal digits denotes. */
  function DecimalValue(ds: string): nat
    requires forall k :: 0 <= k < |ds| ==> IsJavaDigit(ds[k])
  {
    if ds == [] then 0
    else
      assert IsJavaDigit(ds[|ds| - 1]);
      DecimalValue(ds[..|ds| - 1]) * 10 + JavaDigit(ds[|ds| - 1]).value
  }

  /** `Integer.parseInt`: an optional sign, then one or more decimal digits
      of any script; `None` is a NumberFormatException (no digits, a stray
      char, or outside the int range). */
  function ParseInt(s: string): (r: Option<int32>)
    ensures r.Some? ==> exists k :: 0 <= k < |s| && IsJavaDigit(s[k])
  {
    var negative := |s| > 0 && s[0] == '-';
    var digits := if |s| > 0 && (s[0] == '-' || s[0] == '+') then s[1..] else s;
    if digits == [] || exists k :: 0 <= k < |digits| && !IsJavaDigit(digits[k]) then None
    else
      assert IsJavaDigit(s[|s| - |digits|]);
      var v := DecimalValue(digits);
      var signed: int := if negative then -(v as int) else v;
      if MIN <= signed <= MAX then Some(signed as int32) else None
  }

  /** On ASCII digits the value is the one the numerals are read back by. */
  lemma {:induction false} AsciiDecimalValue(ds: string)
    requires forall k :: 0 <= k < |ds| ==> '0' <= ds[k] <= '9'
    ensures forall k :: 0 <= k < |ds| ==> IsJavaDigit(ds[k])
    ensures DecimalValue(ds) == Text.ValueOf(ds, 10)
  {
    if ds != [] {
      AsciiDecimalValue(ds[..|ds| - 1]);
    }
  }

  predicate IsAsciiNumeral(num: string)
  {
    num != [] && forall k :: 0 <= k < |num| ==> '0' <= num[k] <= '9'
  }

  /** A string of ASCII digits reads as its value when that is an int. */
  lemma ParsePositive(num: string)
    requires IsAsciiNumeral(num) && Text.ValueOf(num, 10) <= MAX
    ensures ParseInt(num) == Some(Text.ValueOf(num, 10) as int32)
  {
    AsciiDecimalValue(num);
    assert num[0] != '-' && num[0] != '+';
    assert !exists k :: 0 <= k < |num| && !IsJavaDigit(num[k]);
  }

  /** A minus sign before ASCII digits reads as the negated value when that
      is an int. */
  lemma ParseNegative(num: string)
    requires IsAsciiNumeral(num) && -(Text.ValueOf(num, 10) as int) >= MIN
    ensures ParseInt("-" + num) == Some(-(Text.ValueOf(num, 10) as int) as int32)
  {
    var s := "-" + num;
    AsciiDecimalValue(num);
    assert s[0] == '-' && s[1..] == num;
    assert !exists k :: 0 <= k < |num| && !IsJavaDigit(num[k]);
  }

  /** The decimal rendering of any int parses back to it. */
  lemma ParseDecimal(n: int32)
    ensures ParseInt(Text.Decimal(n)) == Some(n)
  {
    var a: nat := if n < 0 then -(n as int) else n;
    var num := Text.Numeral(a, 10, false);
    Text.NumeralRoundTrip(a, 10, false);
    forall k | 0 <= k < |num| ensures '0' <= num[k] <= '9' {
      assert Text.IsDigitIn(num[k], 10, false);
    }
    if n < 0 {
      ParseNegative(num);
    } else {
      ParsePositive(num);
    }
  }

  /** A line of one Arabic-Indic digit one is the number 1. */
  lemma ArabicIndicOne()
    ensures ParseInt("\U{0661}") == Some(1)
  {
    assert JavaDigit('\U{0661}') == Some(1);
    assert DecimalValue("\U{0661}") == DecimalValue("") * 10 + 1;
  }

  /** `main`'s switch: 1 and 2 run the scope examples, everything else that
      reaches the switch or fails to parse runs the thread example; a
      missing line ends in the outer catch without running any. */
  function ChooseExample(line: Option<string>): (e: Example)
    ensures e == NoExample <==> line.None?
    ensures e == PoorScope <==> line.Some? && ParseInt(Text.Trim(line.value)) == Some(1)
    ensures e == GoodScope <==> line.Some? && ParseInt(Text.Trim(line.value)) == Some(2)
  {
    match line
    case None => NoExample
    case Some(l) =>
      match ParseInt(Text.Trim(l))
      case None => ThreadSafe
      case Some(choice) =>
        if choice == 1 then PoorScope else if choice == 2 then GoodScope else ThreadSafe
  }

  /** The menu line U+0661 (ARABIC-INDIC DIGIT ONE) runs the poor-scope
      example, as "1" does. */
  lemma ArabicIndicChoosesPoorScope()
    ensures ChooseExample(Some("\U{0661}")) == PoorScope
  {
    ArabicIndicOne();
    assert Text.Trim("\U{0661}") == "\U{0661}";
  }

  /** A line with no decimal digit of any script runs the thread example. */
  lemma NonNumericRunsThreads(line: string)
    requires forall k :: 0 <= k < |line| ==> !IsJavaDigit(line[k])
    ensures ChooseExample(Some(line)) == ThreadSafe
  {
    var t := Text.Trim(line);
    var i := |line| - |Text.TrimStart(line)|;
    Text.TrimShape(line);
    forall k | 0 <= k < |t| ensures !IsJavaDigit(t[k]) {
      assert t[k] == line[i + k];
    }
  }
}
