/**
 * The file-reversal exercise's common ground: a directory of named text
 * files, the lines a user types on standard input, and the text functions
 * both `FileProcessor` variants are specified by.
 *
 * A file is its whole content as a string of chars (one char per byte); the
 * directory maps names to contents, and a name it lacks is a file that does
 * not exist. Standard input is the sequence of lines `std::getline` hands
 * out, each without its terminating '\n'.
 */
module Files {
  import Text

  /** The directory the program runs in. */
  class FileSystem {
    var files: map<string, string>

    constructor(initial: map<string, string>)
      ensures files == initial
    {
      files := initial;
    }

    /** What a stream opened on `name` reads; a missing file reads as nothing. */
    function Contents(name: string): string
      reads this
    {
      if name in files then files[name] else ""
    }

    /** An `std::ofstream` opened with `std::ios::app`: creates the file when
        missing, then writes `text` after what is there. */
    method Append(name: string, text: string)
      modifies this
      ensures files == old(files)[name := old(Contents(name)) + text]
    {
      files := files[name := Contents(name) + text];
    }

    /** An `std::ofstream` opened for output: the file is truncated and then
        holds exactly `text`. */
    method Write(name: string, text: string)
      modifies this
      ensures files == old(files)[name := text]
    {
      files := files[name := text];
    }

    /** `std::filesystem::remove`. */
    method Remove(name: string)
      modifies this
      ensures files == old(files) - {name}
    {
      files := files - {name};
    }
  }

  const INPUT_FILE: string := "CSC450_CT5_mod5.txt"
  const OUTPUT_FILE: string := "CSC450-mod5-reverse.txt"

  // ---------------------------------------------------------------------------
  // Reading lines from the user: empty lines before the first content are
  // skipped, and the first empty line after content ends the input.
  // ---------------------------------------------------------------------------

  /** The non-empty lines among `ls`, in order. */
  function NonEmpty(ls: seq<string>): seq<string>
  {
    if ls == [] then []
    else NonEmpty(ls[..|ls| - 1]) + (if ls[|ls| - 1] == "" then [] else [ls[|ls| - 1]])
  }

  /** Line `i` ends the input: it is empty and some content came before it. */
  predicate EndsInput(input: seq<string>, i: nat)
    requires i < |input|
  {
    input[i] == "" && NonEmpty(input[..i]) != []
  }

  function StopFrom(input: seq<string>, i: nat): (r: nat)
    requires i <= |input|
    ensures i <= r <= |input|
    ensures r < |input| ==> EndsInput(input, r)
    ensures forall j :: i <= j < r ==> !EndsInput(input, j)
    decreases |input| - i
  {
    if i == |input| then i
    else if EndsInput(input, i) then i
    else StopFrom(input, i + 1)
  }

  /** The index of the first line that ends the input, or `|input|` when no
      line does (the input runs to end of file). */
  function Stop(input: seq<string>): (r: nat)
    ensures r <= |input|
    ensures r < |input| ==> input[r] == "" && NonEmpty(input[..r]) != []
    ensures forall j :: 0 <= j < r ==> !EndsInput(input, j)
  {
    StopFrom(input, 0)
  }

  /** The lines the user entered: the non-empty ones before the stop. */
  function Entered(input: seq<string>): seq<string>
  {
    NonEmpty(input[..Stop(input)])
  }

  lemma NonEmptySnoc(ls: seq<string>, l: string)
    ensures NonEmpty(ls + [l]) == NonEmpty(ls) + (if l == "" then [] else [l])
  {
    assert (ls + [l])[..|ls|] == ls;
  }

  /** Every entered line is non-empty and is a line of the input; no line
      after the stop is entered. */
  lemma {:induction false} NonEmptyLines(ls: seq<string>)
    ensures |NonEmpty(ls)| <= |ls|
    ensures forall k :: 0 <= k < |NonEmpty(ls)| ==> NonEmpty(ls)[k] != "" && NonEmpty(ls)[k] in ls
    ensures NonEmpty(ls) == [] <==> forall k :: 0 <= k < |ls| ==> ls[k] == ""
  {
    if ls != [] {
      var init := ls[..|ls| - 1];
      NonEmptyLines(init);
      forall x | x in init ensures x in ls {
        var i :| 0 <= i < |init| && init[i] == x;
        assert ls[i] == x;
      }
      assert ls == init + [ls[|ls| - 1]];
    }
  }

  // ---------------------------------------------------------------------------
  // Writing lines and reading them back with `std::getline`.
  // ---------------------------------------------------------------------------

  /** The text of `ls` written one line after the other, each with its '\n'. */
  function JoinLines(ls: seq<string>): string
  {
    Text.Terminated(ls, '\n')
  }

  /** What successive `std::getline` calls return on a stream holding `text`:
      the pieces between newlines, where a final '\n' ends the last line
      rather than opening an empty one. */
  function GetLines(text: string): seq<string>
  {
    var p := Text.Split(text, {'\n'});
    if p[|p| - 1] == "" then p[..|p| - 1] else p
  }

  /** The text with a '\n' added when it is non-empty and lacks a final one. */
  function Normalize(text: string): string
  {
    if text == [] || text[|text| - 1] == '\n' then text else text + "\n"
  }

  /** `if (!content.empty() && content.back() == '\n') content.pop_back();` */
  function StripNewline(text: string): string
  {
    if text != [] && text[|text| - 1] == '\n' then text[..|text| - 1] else text
  }

  /** What the reversal writes for input text `text`. */
  function ReversedOutput(text: string): string
  {
    Text.Reverse(StripNewline(text)) + "\n"
  }

  predicate IsLine(l: string)
  {
    Text.NoneIn(l, {'\n'})
  }

  /** Reading back what was written line by line gives the same lines. */
  lemma GetLinesJoinLines(ls: seq<string>)
    requires forall k :: 0 <= k < |ls| ==> IsLine(ls[k])
    ensures GetLines(JoinLines(ls)) == ls
  {
    Text.TerminatedIsJoin(ls, '\n');
    if ls != [] {
      var j := Text.Join(ls, '\n');
      Text.SplitJoin(ls, '\n');
      Text.SplitSnoc(j, '\n', {'\n'});
      assert Text.Split(j + "\n", {'\n'}) == ls + [""];
      assert (ls + [""])[..|ls|] == ls;
    }
  }

  /** Rebuilding a text from its `getline` lines, each with '\n', normalises
      it to end in '\n'. */
  lemma GetLinesRebuild(text: string)
    ensures JoinLines(GetLines(text)) == Normalize(text)
  {
    if text != [] {
      var x, c := text[..|text| - 1], text[|text| - 1];
      assert text == x + [c];
      Text.SplitSnoc(x, c, {'\n'});
      var px := Text.Split(x, {'\n'});
      Text.JoinSplit(x, '\n');
      Text.JoinSplit(text, '\n');
      if c == '\n' {
        assert GetLines(text) == px;
        Text.TerminatedIsJoin(px, '\n');
      } else {
        var p := Text.Split(text, {'\n'});
        assert p[|p| - 1] == px[|px| - 1] + [c];
        Text.TerminatedIsJoin(p, '\n');
      }
    }
  }

  /** Normalising adds nothing the strip does not take away again. */
  lemma NormalizeThenStrip(text: string)
    ensures StripNewline(Normalize(text)) == StripNewline(text)
    ensures Normalize(text) == [] <==> text == []
  {
    if text != [] && text[|text| - 1] != '\n' {
      assert (text + "\n")[..|text|] == text;
    }
  }

  /** The reversal's output: one '\n' after the reversed text, which read
      backwards is the input without its final newline; as long as the input
      when that newline was there, one longer otherwise. */
  lemma ReversedOutputFacts(text: string)
    ensures var out := ReversedOutput(text);
            |out| >= 1 && out[|out| - 1] == '\n' &&
            Text.Reverse(out[..|out| - 1]) == StripNewline(text) &&
            (StripNewline(text) == text || StripNewline(text) + "\n" == text) &&
            |out| == (if text != [] && text[|text| - 1] == '\n' then |text| else |text| + 1)
  {
    var out := ReversedOutput(text);
    assert out[..|out| - 1] == Text.Reverse(StripNewline(text));
    Text.ReverseReverse(StripNewline(text));
    if text != [] && text[|text| - 1] == '\n' {
      assert text[..|text| - 1] + "\n" == text;
    }
  }

  /** A file holding a lone newline is not empty; its output is a newline. */
  lemma LoneNewline()
    ensures ReversedOutput("\n") == "\n"
  {
    assert StripNewline("\n") == [];
  }

  /** Two lines come back in reverse order, each reversed. */
  lemma TwoLinesExample()
    ensures ReversedOutput("ab\ncd\n") == "dc\nba\n"
  {
    var s := "ab\ncd";
    assert StripNewline("ab\ncd\n") == s;
    Text.MirrorIsReverse(s, "dc\nba");
  }
}
