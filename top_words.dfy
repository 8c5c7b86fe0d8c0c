/**
 * The scope-minimisation demonstration's output phase: the report files the
 * poor and the good example write, with the good example's five most
 * frequent words (entries sorted by count, highest first, then cut to five),
 * and the good example's whole run from standard input to report.
 *
 * A `HashMap`'s entry set is iterated in an order of its own; it is a
 * parameter here, a duplicate-free listing of the map's keys. Any tie order
 * the library's sort may produce is some order of the keys, and the
 * properties hold for every order.
 */
module TopWords {
  import opened Results
  import Text
  import opened WordCount

  /** A duplicate-free listing of exactly the keys of `m`. */
  predicate IsKeyOrder(order: seq<string>, m: map<string, int>)
  {
    Distinct(order) && (forall k :: k in m ==> k in order) && (forall k :: k in order ==> k in m)
  }

  predicate AllKeys(ks: seq<string>, m: map<string, int>)
  {
    forall i :: 0 <= i < |ks| ==> ks[i] in m
  }

  predicate NonIncreasing(ks: seq<string>, m: map<string, int>)
    requires AllKeys(ks, m)
  {
    forall i, j :: 0 <= i < j < |ks| ==> m[ks[i]] >= m[ks[j]]
  }

  /** Inserts `k` before the first key whose count is not above its own. */
  function InsertByCount(k: string, ks: seq<string>, m: map<string, int>): (r: seq<string>)
    requires k in m && AllKeys(ks, m)
    ensures |r| == |ks| + 1 && AllKeys(r, m)
    ensures forall x :: x in r <==> x == k || x in ks
  {
    if ks == [] || m[k] >= m[ks[0]] then [k] + ks
    else [ks[0]] + InsertByCount(k, ks[1..], m)
  }

  /** Stable insertion sort by count, highest count first. */
  function SortByCount(ks: seq<string>, m: map<string, int>): (r: seq<string>)
    requires AllKeys(ks, m)
    ensures |r| == |ks| && AllKeys(r, m)
    ensures forall x :: x in r <==> x in ks
  {
    if ks == [] then [] else InsertByCount(ks[0], SortByCount(ks[1..], m), m)
  }

  lemma {:induction false} InsertKeepsOrder(k: string, ks: seq<string>, m: map<string, int>)
    requires k in m && AllKeys(ks, m) && NonIncreasing(ks, m)
    ensures NonIncreasing(InsertByCount(k, ks, m), m)
  {
    if ks != [] && m[k] < m[ks[0]] {
      var rest := ks[1..];
      InsertKeepsOrder(k, rest, m);
      var r := InsertByCount(k, ks, m);
      var t := InsertByCount(k, rest, m);
      assert r == [ks[0]] + t;
      forall j | 0 < j < |r| ensures m[r[0]] >= m[r[j]] {
        assert r[j] == t[j - 1] && t[j - 1] in t;
        if r[j] != k {
          var i :| 0 <= i < |rest| && rest[i] == r[j];
          assert rest[i] == ks[i + 1];
        }
      }
    }
  }

  /** A key missing from a listing is missing from its tail too. */
  lemma NotInTail(k: string, s: seq<string>)
    requires s != [] && k !in s
    ensures k !in s[1..]
  {
    forall i | 0 <= i < |s[1..]| ensures s[1..][i] != k {
      assert s[1..][i] == s[i + 1] && s[i + 1] in s;
    }
  }

  /** The tail of a duplicate-free listing is duplicate-free and lacks its head. */
  lemma DistinctTail(s: seq<string>)
    requires s != [] && Distinct(s)
    ensures Distinct(s[1..]) && s[0] !in s[1..]
  {
    var rest := s[1..];
    forall i, j | 0 <= i < j < |rest| ensures rest[i] != rest[j] {
      assert rest[i] == s[i + 1] && rest[j] == s[j + 1];
    }
    forall i | 0 <= i < |rest| ensures rest[i] != s[0] {
      assert rest[i] == s[i + 1];
    }
  }

  lemma {:induction false} InsertKeepsDistinct(k: string, ks: seq<string>, m: map<string, int>)
    requires k in m && AllKeys(ks, m) && Distinct(ks) && k !in ks
    ensures Distinct(InsertByCount(k, ks, m))
  {
    if ks != [] && m[k] < m[ks[0]] {
      var rest := ks[1..];
      NotInTail(k, ks);
      DistinctTail(ks);
      InsertKeepsDistinct(k, rest, m);
      var t := InsertByCount(k, rest, m);
      assert ks[0] !in t;
    }
  }

  /** The sort orders by count and, on a duplicate-free listing, only
      rearranges it. */
  lemma {:induction false} SortByCountSorted(ks: seq<string>, m: map<string, int>)
    requires AllKeys(ks, m)
    ensures NonIncreasing(SortByCount(ks, m), m)
    ensures Distinct(ks) ==> Distinct(SortByCount(ks, m))
  {
    if ks != [] {
      var rest := ks[1..];
      SortByCountSorted(rest, m);
      InsertKeepsOrder(ks[0], SortByCount(rest, m), m);
      if Distinct(ks) {
        DistinctTail(ks);
        InsertKeepsDistinct(ks[0], SortByCount(rest, m), m);
      }
    }
  }

  /** A duplicate-free listing has as many entries as distinct elements. */
  lemma {:induction false} DistinctCard(s: seq<string>)
    requires Distinct(s)
    ensures |set x | x in s| == |s|
  {
    if s != [] {
      var rest := s[1..];
      DistinctTail(s);
      DistinctCard(rest);
      assert (set x | x in s) == (set x | x in rest) + {s[0]};
    }
  }

  /** A key order of a map lists as many keys as the map has. */
  lemma KeyOrderLength(order: seq<string>, m: map<string, int>)
    requires IsKeyOrder(order, m)
    ensures |order| == |m|
  {
    DistinctCard(order);
    assert (set x | x in order) == m.Keys;
  }

  /** `entrySet().stream().sorted(comparingByValue().reversed()).limit(5)`;
      `None` when the map is empty and no top list is written. */
  function TopFive(m: map<string, int>, order: seq<string>): (r: Option<seq<string>>)
    requires IsKeyOrder(order, m)
  {
    if |m| == 0 then None
    else
      var sorted := SortByCount(order, m);
      Some(if |sorted| <= 5 then sorted else sorted[..5])
  }

  /** The top list: absent exactly for an empty map; otherwise as many
      entries as the map has up to five, distinct keys of the map, counts
      from highest to lowest, and no key left out has a count above the
      last one listed. */
  lemma TopFiveSound(m: map<string, int>, order: seq<string>)
    requires IsKeyOrder(order, m)
    ensures TopFive(m, order).None? <==> |m| == 0
    ensures TopFive(m, order).Some? ==>
              var top := TopFive(m, order).value;
              |top| == (if |m| < 5 then |m| else 5) && AllKeys(top, m) && Distinct(top) &&
              NonIncreasing(top, m) &&
              forall k :: k in m && k !in top ==> m[k] <= m[top[|top| - 1]]
  {
    KeyOrderLength(order, m);
    if |m| != 0 {
      var sorted := SortByCount(order, m);
      SortByCountSorted(order, m);
      var n := if |sorted| <= 5 then |sorted| else 5;
      var top := TopFive(m, order).value;
      assert top == sorted[..n];
      assert |top| == (if |m| < 5 then |m| else 5);
      PrefixFacts(sorted, m, n);
    }
  }

  /** A prefix of a listing sorted by count keeps its properties, and every
      key of the map outside it counts no more than its last entry. */
  lemma PrefixFacts(sorted: seq<string>, m: map<string, int>, n: nat)
    requires 0 < n <= |sorted| && AllKeys(sorted, m) && NonIncreasing(sorted, m) && Distinct(sorted)
    requires forall k :: k in m ==> k in sorted
    ensures var top := sorted[..n];
            AllKeys(top, m) && Distinct(top) && NonIncreasing(top, m) &&
            forall k :: k in m && k !in top ==> m[k] <= m[top[n - 1]]
  {
    var top := sorted[..n];
    forall k | k in m && k !in top ensures m[k] <= m[top[n - 1]] {
      var i :| 0 <= i < |sorted| && sorted[i] == k;
      forall j | 0 <= j < n ensures sorted[j] != k {
        assert top[j] == sorted[j] && top[j] in top;
      }
      assert top[n - 1] == sorted[n - 1];
    }
  }

  // ---------------------------------------------------------------------------
  // The report files
  // ---------------------------------------------------------------------------

  /** One line of the top list: `"  " + key + ": " + count + " times\n"`. */
  function TopLine(k: string, count: int): string
  {
    "  " + k + ": " + Text.Decimal(count) + " times\n"
  }

  function TopLines(ks: seq<string>, m: map<string, int>): string
    requires AllKeys(ks, m)
  {
    if ks == [] then "" else TopLine(ks[0], m[ks[0]]) + TopLines(ks[1..], m)
  }

  /** `GoodScopeExample.writeResults`: the three totals, a blank line, and the
      top list when any word was counted. */
  function GoodReport(result: ProcessingResult, order: seq<string>): (text: string)
    requires IsKeyOrder(order, result.wordCount)
  {
    var header := "=== Processing Results ===\n" +
                  "Total entries: " + Text.Decimal(result.totalEntries) + "\n" +
                  "Unique words: " + Text.Decimal(|result.wordCount|) + "\n" +
                  "Filtered words (>3 chars): " + Text.Decimal(|result.filteredWords|) + "\n\n";
    match TopFive(result.wordCount, order)
    case None => header
    case Some(top) => header + "Top 5 most frequent words:\n" + TopLines(top, result.wordCount)
  }

  /** The poor example writes its three totals only when the quit line is
      reached; its `FileWriter` has created the file before reading, so
      otherwise the file is left empty. */
  function PoorReport(result: PoorScopeResult): (text: string)
  {
    if result.written then
      "Total entries: " + Text.Decimal(result.totalCount) + "\n" +
      "Filtered words: " + Text.Decimal(|result.filteredData|) + "\n" +
      "Unique words: " + Text.Decimal(|result.wordCount|) + "\n"
    else ""
  }

  /** `PoorScopeExample.processUserData`: the `FileWriter` creates the file
      before the first line is read; it holds the three totals of the lines
      read before the quit line when that line is reached, and stays empty
      when the input ends first. */
  method PoorScopeRun(input: seq<string>) returns (file: string)
    ensures FirstQuit(input) == |input| ==> file == ""
    ensures FirstQuit(input) < |input| ==>
              var data := KeptLines(input[..FirstQuit(input)]);
              file == "Total entries: " + Text.Decimal(|data|) + "\n" +
                      "Filtered words: " + Text.Decimal(|LongWords(AllWords(data))|) + "\n" +
                      "Unique words: " + Text.Decimal(|Counts(AllWords(data))|) + "\n"
  {
    var result := PoorScopeProcess(input);
    file := PoorReport(result);
  }

  /** `GoodScopeExample.processUserData`: nothing is written when no line was
      collected ("No data collected."); otherwise the collected lines are
      processed and the report is the file's content. */
  method GoodScopeRun(input: seq<string>, order: seq<string>) returns (file: Option<string>)
    requires IsKeyOrder(order, Counts(AllWords(KeptLines(input[..FirstQuit(input)]))))
    ensures KeptLines(input[..FirstQuit(input)]) == [] ==> file == None
    ensures KeptLines(input[..FirstQuit(input)]) != [] ==>
              var data := KeptLines(input[..FirstQuit(input)]);
              file == Some(GoodReport(ProcessingResult(|data|, Counts(AllWords(data)),
                                                       LongWords(AllWords(data))), order))
  {
    var collectedData := CollectUserInput(input);
    if collectedData == [] {
      return None;
    }
    var result := ProcessData(collectedData);
    return Some(GoodReport(result, order));
  }
}
