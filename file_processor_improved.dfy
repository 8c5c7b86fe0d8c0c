/**
 * The hardened `FileProcessor`: user lines are collected first (each cut to
 * 1000 chars) and appended in one write; files are read whole after a size
 * check; the reversal drops one final newline, reverses the chars in place
 * and writes them with a newline; the input file can be restored from a
 * backup copy.
 */
module ImprovedFileProcessor {
  import opened Results
  import Text
  import opened Files

  const BACKUP_FILE: string := "CSC450_CT5_mod5 copy.txt"
  const MAX_FILE_SIZE: nat := 10_000_000
  const MAX_LINE_LENGTH: nat := 1000

  /** `readFileContent`: a file whose size cannot be determined (it does not
      exist) or exceeds the limit raises an error; otherwise its whole content. */
  function ReadFileContent(files: map<string, string>, name: string): (r: Result<string, string>)
    ensures r.Ok? <==> name in files && |files[name]| <= MAX_FILE_SIZE
    ensures r.Ok? ==> r.value == files[name]
    ensures r.Err? ==> r.error == "File too large or inaccessible: " + name
  {
    if name !in files || |files[name]| > MAX_FILE_SIZE then
      Err("File too large or inaccessible: " + name)
    else Ok(files[name])
  }

  /** `line.resize(1000)` on a line that is too long. */
  function Truncate(line: string): string
  {
    if |line| > MAX_LINE_LENGTH then line[..MAX_LINE_LENGTH] else line
  }

  /** The lines kept: every entered line, cut to the length limit. */
  function Stored(ls: seq<string>): seq<string>
  {
    if ls == [] then [] else Stored(ls[..|ls| - 1]) + [Truncate(ls[|ls| - 1])]
  }

  /** Each stored line is the corresponding entered line, or its first 1000
      chars when it was longer; it is non-empty when that line was. */
  lemma {:induction false} StoredLines(ls: seq<string>)
    ensures |Stored(ls)| == |ls|
    ensures forall k :: 0 <= k < |ls| ==>
              |Stored(ls)[k]| <= MAX_LINE_LENGTH && Stored(ls)[k] <= ls[k] &&
              (|ls[k]| <= MAX_LINE_LENGTH ==> Stored(ls)[k] == ls[k]) &&
              (ls[k] != "" ==> Stored(ls)[k] != "")
  {
    if ls != [] {
      StoredLines(ls[..|ls| - 1]);
    }
  }

  /** The collected lines are non-empty, at most 1000 chars long, free of
      newlines when the input is, and as many as the entered lines. */
  lemma CollectedLines(input: seq<string>)
    requires forall k :: 0 <= k < |input| ==> IsLine(input[k])
    ensures var s := Stored(Entered(input));
            |s| == |Entered(input)| &&
            forall k :: 0 <= k < |s| ==> s[k] != "" && |s[k]| <= MAX_LINE_LENGTH && IsLine(s[k])
  {
    var e := Entered(input);
    NonEmptyLines(input[..Stop(input)]);
    StoredLines(e);
    forall k | 0 <= k < |e| ensures IsLine(Stored(e)[k]) {
      var j :| 0 <= j < Stop(input) && input[..Stop(input)][j] == e[k];
      assert input[j] == e[k];
      assert Stored(e)[k] <= e[k];
    }
  }

  /** The collection loop of `appendUserInput`. */
  method CollectLines(input: seq<string>) returns (lines: seq<string>, hasContent: bool)
    ensures lines == Stored(Entered(input))
    ensures hasContent <==> Entered(input) != []
  {
    lines := [];
    hasContent := false;
    var i := 0;
    while i < |input|
      invariant 0 <= i <= Stop(input)
      invariant lines == Stored(NonEmpty(input[..i]))
      invariant hasContent <==> NonEmpty(input[..i]) != []
    {
      var line := input[i];
      if line == "" && hasContent {
        assert EndsInput(input, i);
        break;
      }
      assert input[..i + 1] == input[..i] + [line];
      NonEmptySnoc(input[..i], line);
      if line != "" {
        if |line| > MAX_LINE_LENGTH {
          line := line[..MAX_LINE_LENGTH];
        }
        hasContent := true;
        lines := lines + [line];
      }
      i := i + 1;
    }
    StoredLines(NonEmpty(input[..i]));
  }

  /** The content-building loop: every line followed by '\n'. */
  method BuildContent(lines: seq<string>) returns (content: string)
    ensures content == JoinLines(lines)
  {
    content := "";
    for i := 0 to |lines|
      invariant content == JoinLines(lines[..i])
    {
      assert lines[..i + 1][..i] == lines[..i];
      content := content + lines[i] + "\n";
    }
    assert lines[..|lines|] == lines;
  }

  /** `appendUserInput`: with no content nothing is written and the result
      is false; otherwise the stored lines are appended to the input file,
      which is created when missing. */
  method AppendUserInput(fs: FileSystem, input: seq<string>) returns (ok: bool)
    modifies fs
    ensures ok <==> Entered(input) != []
    ensures ok ==> fs.files == old(fs.files)[INPUT_FILE := old(fs.Contents(INPUT_FILE)) + JoinLines(Stored(Entered(input)))]
    ensures !ok ==> fs.files == old(fs.files)
  {
    var lines, hasContent := CollectLines(input);
    if !hasContent {
      return false;
    }
    var content := BuildContent(lines);
    fs.Append(INPUT_FILE, content);
    return true;
  }

  /** `reverseFileContent`: an unreadable or empty input file gives false and
      no output; otherwise the output file holds the reversed content. */
  method ReverseFileContent(fs: FileSystem) returns (ok: bool)
    modifies fs
    ensures ok <==> INPUT_FILE in old(fs.files) && 0 < |old(fs.files)[INPUT_FILE]| <= MAX_FILE_SIZE
    ensures ok ==> fs.files == old(fs.files)[OUTPUT_FILE := ReversedOutput(old(fs.files)[INPUT_FILE])]
    ensures !ok ==> fs.files == old(fs.files)
  {
    var read := ReadFileContent(fs.files, INPUT_FILE);
    if read.Err? {
      return false;
    }
    var content := read.value;
    if content == "" {
      return false;
    }
    if content[|content| - 1] == '\n' {
      content := content[..|content| - 1];
    }
    var buffer := new char[|content|](k requires 0 <= k < |content| => content[k]);
    assert buffer[..] == content;
    Text.ReverseInPlace(buffer);
    fs.Write(OUTPUT_FILE, buffer[..] + "\n");
    return true;
  }

  /** `restoreFromBackup`: a missing or oversized backup gives false and
      changes nothing; otherwise the input file is replaced by a copy of the
      backup. */
  method RestoreFromBackup(fs: FileSystem) returns (ok: bool)
    modifies fs
    ensures ok <==> BACKUP_FILE in old(fs.files) && |old(fs.files)[BACKUP_FILE]| <= MAX_FILE_SIZE
    ensures ok ==> fs.files == old(fs.files)[INPUT_FILE := old(fs.files)[BACKUP_FILE]]
    ensures !ok ==> fs.files == old(fs.files)
  {
    if BACKUP_FILE !in fs.files {
      return false;
    }
    var read := ReadFileContent(fs.files, BACKUP_FILE);
    if read.Err? {
      return false;
    }
    var backupContent := read.value;
    if INPUT_FILE in fs.files {
      fs.Remove(INPUT_FILE);
    }
    fs.Write(INPUT_FILE, backupContent);
    return true;
  }

  /** A restored input file reads back as the backup, and the backup is
      still there: restoring changes only the input file. */
  lemma RestoreCopies(files: map<string, string>)
    requires BACKUP_FILE in files && |files[BACKUP_FILE]| <= MAX_FILE_SIZE
    ensures var after := files[INPUT_FILE := files[BACKUP_FILE]];
            ReadFileContent(after, INPUT_FILE) == ReadFileContent(files, BACKUP_FILE) &&
            ReadFileContent(after, BACKUP_FILE) == ReadFileContent(files, BACKUP_FILE) &&
            forall n :: n in files && n != INPUT_FILE ==> n in after && after[n] == files[n]
  {
    assert INPUT_FILE != BACKUP_FILE by {
      assert INPUT_FILE[15] != BACKUP_FILE[15];
    }
  }

  /** The lines the user entered are exactly what `getline` reads back from
      the appended block: the append round-trips. */
  lemma AppendedBlockReadsBack(input: seq<string>)
    requires forall k :: 0 <= k < |input| ==> IsLine(input[k])
    ensures GetLines(JoinLines(Stored(Entered(input)))) == Stored(Entered(input))
  {
    CollectedLines(input);
    GetLinesJoinLines(Stored(Entered(input)));
  }
}
