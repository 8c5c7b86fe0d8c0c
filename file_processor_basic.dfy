/**
 * The first `FileProcessor`: each non-empty user line is written to the
 * input file as soon as it is read, with no length limit; the reversal reads
 * the file back line by line, rebuilds it with a '\n' after every line,
 * drops the final newline, reverses the chars in place and writes them with
 * a newline.
 */
module BasicFileProcessor {
  import Text
  import opened Files

  /** `appendUserInput`: the input file is opened for appending (created when
      missing) before anything is read; every entered line is written with
      its '\n'; the result says whether any line was entered. */
  method AppendUserInput(fs: FileSystem, input: seq<string>) returns (ok: bool)
    modifies fs
    ensures ok <==> Entered(input) != []
    ensures fs.files == old(fs.files)[INPUT_FILE := old(fs.Contents(INPUT_FILE)) + JoinLines(Entered(input))]
  {
    fs.Append(INPUT_FILE, "");
    assert fs.files[INPUT_FILE] == old(fs.Contents(INPUT_FILE));
    ok := WriteEnteredLines(fs, input);
  }

  /** The reading loop of `appendUserInput`, writing to the opened file. */
  method WriteEnteredLines(fs: FileSystem, input: seq<string>) returns (hasContent: bool)
    requires INPUT_FILE in fs.files
    modifies fs
    ensures hasContent <==> Entered(input) != []
    ensures fs.files == old(fs.files)[INPUT_FILE := old(fs.files[INPUT_FILE]) + JoinLines(Entered(input))]
  {
    ghost var start := fs.files[INPUT_FILE];
    ghost var written := "";
    hasContent := false;
    var i := 0;
    assert input[..0] == [] && start + written == start;
    assert fs.files == old(fs.files)[INPUT_FILE := start];
    while i < |input|
      invariant 0 <= i <= Stop(input)
      invariant written == JoinLines(NonEmpty(input[..i]))
      invariant fs.files == old(fs.files)[INPUT_FILE := start + written]
      invariant hasContent <==> NonEmpty(input[..i]) != []
    {
      var line := input[i];
      if line == "" && hasContent {
        assert EndsInput(input, i);
        break;
      }
      assert input[..i + 1] == input[..i] + [line];
      NonEmptySnoc(input[..i], line);
      if line != "" {
        hasContent := true;
        fs.Append(INPUT_FILE, line + "\n");
        assert start + written + (line + "\n") == start + (written + line + "\n");
        written := written + line + "\n";
      }
      i := i + 1;
    }
  }

  /** The `getline` loop of `reverseFileContent`: every line read, followed
      by '\n'. */
  method ReadBack(text: string) returns (content: string)
    ensures content == Normalize(text)
  {
    var lines := GetLines(text);
    content := "";
    for i := 0 to |lines|
      invariant content == JoinLines(lines[..i])
    {
      assert lines[..i + 1][..i] == lines[..i];
      content := content + lines[i] + "\n";
    }
    assert lines[..|lines|] == lines;
    GetLinesRebuild(text);
  }

  /** `reverseFileContent`: a missing input file or an empty one gives false
      and no output; otherwise the output file holds the reversal of the
      rebuilt content. */
  method ReverseFileContent(fs: FileSystem) returns (ok: bool)
    modifies fs
    ensures ok <==> INPUT_FILE in old(fs.files) && old(fs.files)[INPUT_FILE] != ""
    ensures ok ==> fs.files == old(fs.files)[OUTPUT_FILE := ReversedOutput(Normalize(old(fs.files)[INPUT_FILE]))]
    ensures !ok ==> fs.files == old(fs.files)
  {
    if INPUT_FILE !in fs.files {
      return false;
    }
    var content := ReadBack(fs.files[INPUT_FILE]);
    NormalizeThenStrip(fs.files[INPUT_FILE]);
    if content == "" {
      return false;
    }
    if content[|content| - 1] == '\n' {
      content := content[..|content| - 1];
    }
    var buffer := new char[|content|](k requires 0 <= k < |content| => content[k]);
    assert buffer[..] == content;
    Text.ReverseInPlace(buffer);
    fs.Write(OUTPUT_FILE, buffer[..] + "\n");
    return true;
  }

  /** The rebuilt content of a non-empty file ends in '\n' and is the file
      itself or the file with one '\n' added; its reversal is the reversal of
      the file itself. */
  lemma RebuiltContent(text: string)
    requires text != []
    ensures var c := Normalize(text);
            c[|c| - 1] == '\n' && (c == text || c == text + "\n") &&
            ReversedOutput(c) == ReversedOutput(text)
  {
    NormalizeThenStrip(text);
  }

  /** The output reverses the rebuilt content without its final newline:
      read backwards without its own final '\n' it is that content. */
  lemma OutputReversesContent(text: string)
    requires text != []
    ensures var c, out := Normalize(text), ReversedOutput(Normalize(text));
            |out| == |c| && out[|out| - 1] == '\n' && Text.Reverse(out[..|out| - 1]) == c[..|c| - 1]
  {
    RebuiltContent(text);
    ReversedOutputFacts(Normalize(text));
  }
}
