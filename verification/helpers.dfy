/**
 * The helpers of src/helpers.ts: the backend URL check, the nonce, the
 * staged-diff lookup and the working-tree diff assembly.  Configuration
 * reads, `execSync`, `exec`, `existsSync`, `readFile` and `Math.random` are
 * not modelled: their results are parameters.
 */
module Helpers {
  import opened Results
  import opened JsText
  import opened Effects

  /** How a child process call ended: its standard output, or the rendering of what it threw. */
  datatype ExecResult = Stdout(text: string) | ExecFailed(error: string)

  const BackendUrlKey := "backendUrl"
  const InvalidEndpoint := "Endpoint  invalid."
  const MissingBackendUrl := "Backend URL not found in configuration for key: " + BackendUrlKey

  /**
   * `getBackendUrl`: an empty end point is refused first, then a missing or
   * empty configured base URL; otherwise the URL is the base followed by the
   * end point.
   */
  function GetBackendUrl(endPoint: string, backendUrl: Option<string>): (r: Result<string>)
    ensures endPoint == "" ==> r == Err(InvalidEndpoint)
    ensures endPoint != "" && !Truthy(backendUrl) ==> r == Err(MissingBackendUrl)
    ensures r.Ok? <==> endPoint != "" && Truthy(backendUrl)
    ensures r.Ok? ==>
      && |r.value| == |backendUrl.value| + |endPoint|
      && r.value[..|backendUrl.value|] == backendUrl.value
      && r.value[|backendUrl.value|..] == endPoint
  {
    if endPoint == "" then Err(InvalidEndpoint)
    else if !Truthy(backendUrl) then Err(MissingBackendUrl)
    else Ok(backendUrl.value + endPoint)
  }

  /** The characters `first`, `first + 1`, ..., `n` of them in code point order. */
  function CharRange(first: char, n: nat): (s: string)
    requires first as int + n <= 0xD800
    ensures |s| == n
    ensures forall i :: 0 <= i < n ==> s[i] == (first as int + i) as char
  {
    seq(n, i requires 0 <= i < n => (first as int + i) as char)
  }

  /** `possible`: the upper-case letters, the lower-case letters, then the ten digits. */
  const Alphabet := CharRange('A', 26) + CharRange('a', 26) + CharRange('0', 10)
  const NonceLength := 32

  predicate IsAlphanumeric(c: char) {
    'A' <= c <= 'Z' || 'a' <= c <= 'z' || '0' <= c <= '9'
  }

  /** `Math.floor(r * possible.length)` for one value `r` of `Math.random()`. */
  function Pick(r: real): (i: nat)
    requires 0.0 <= r < 1.0
    ensures i < |Alphabet|
  {
    (r * (|Alphabet| as real)).Floor
  }

  /**
   * `getNonce`, with the values `Math.random()` returns given as `draws`:
   * exactly 32 characters, the k-th one picked from the alphabet by the
   * k-th draw, so every one of them is a letter or a digit.
   */
  method GetNonce(draws: seq<real>) returns (text: string)
    requires |draws| >= NonceLength
    requires forall k :: 0 <= k < |draws| ==> 0.0 <= draws[k] < 1.0
    ensures |text| == NonceLength
    ensures forall k :: 0 <= k < NonceLength ==> text[k] == Alphabet[Pick(draws[k])]
    ensures forall k :: 0 <= k < |text| ==> IsAlphanumeric(text[k])
  {
    AlphabetIsAlphanumeric();
    text := "";
    var i := 0;
    while i < NonceLength
      invariant 0 <= i <= NonceLength && |text| == i
      invariant forall k :: 0 <= k < i ==> text[k] == Alphabet[Pick(draws[k])]
    {
      text := text + [Alphabet[Pick(draws[i])]];
      i := i + 1;
    }
  }

  /** The alphabet holds 62 characters: exactly the ASCII letters and digits. */
  lemma AlphabetIsAlphanumeric()
    ensures |Alphabet| == 62
    ensures forall k :: 0 <= k < |Alphabet| ==> IsAlphanumeric(Alphabet[k])
    ensures forall c :: IsAlphanumeric(c) ==> c in Alphabet
  {
    forall c | IsAlphanumeric(c) ensures c in Alphabet {
      if 'A' <= c <= 'Z' {
        assert Alphabet[(c as int) - ('A' as int)] == c;
      } else if 'a' <= c <= 'z' {
        assert Alphabet[26 + (c as int) - ('a' as int)] == c;
      } else {
        assert Alphabet[52 + (c as int) - ('0' as int)] == c;
      }
    }
  }

  const StagedDiffCommand := "git diff --staged"
  const NoWorkspaceText := "No workspace folder found."
  const NothingStagedText := "No staged changes found. Stage your changes first."

  /** What `getStagedDiffOrShowError` returns when it returns. */
  datatype DiffOutcome = NoWorkspace | NothingStaged | Staged(cwd: string, diff: string)

  /** The staged-diff lookup: its outcome (`Err` when `execSync` threw) and its effects. */
  datatype StagedDiff = StagedDiff(outcome: Result<DiffOutcome>, trace: seq<Effect>)

  /**
   * `getStagedDiffOrShowError`, given the open workspace folders (an absent
   * list is empty) and how `git diff --staged` ended.  Without a folder it
   * shows one error and runs nothing; otherwise it runs git once in the
   * first folder, warns and gives up on a blank diff, lets a git failure
   * propagate, and never hands back a blank diff.
   */
  function GetStagedDiffOrShowError(folders: seq<string>, staged: ExecResult): (s: StagedDiff)
    ensures s.outcome == Ok(NoWorkspace) <==> folders == []
    ensures forall i :: 0 <= i < |s.trace| ==> s.trace[i].Exec? || s.trace[i].Notify?
    ensures folders == [] ==> s.trace == [Notify(Error, NoWorkspaceText)]
    ensures folders != [] ==> |s.trace| >= 1 && s.trace[0] == Exec(StagedDiffCommand, Some(folders[0]))
    ensures folders != [] ==> multiset(s.trace)[Exec(StagedDiffCommand, Some(folders[0]))] == 1
    ensures s.outcome == Ok(NothingStaged) <==> folders != [] && staged.Stdout? && IsBlank(staged.text)
    ensures s.outcome == Ok(NothingStaged) ==> s.trace[1..] == [Notify(Warning, NothingStagedText)]
    ensures s.outcome.Err? <==> folders != [] && staged.ExecFailed?
    ensures s.outcome.Err? ==> s.outcome.error == staged.error && |s.trace| == 1
    ensures s.outcome.Ok? && s.outcome.value.Staged? ==>
      && !IsBlank(s.outcome.value.diff)
      && s.outcome.value.cwd == folders[0]
      && staged == Stdout(s.outcome.value.diff)
      && |s.trace| == 1
  {
    if folders == [] then StagedDiff(Ok(NoWorkspace), [Notify(Error, NoWorkspaceText)])
    else
      var run := [Exec(StagedDiffCommand, Some(folders[0]))];
      match staged
      case ExecFailed(e) => StagedDiff(Err(e), run)
      case Stdout(diff) =>
        if IsBlank(diff) then StagedDiff(Ok(NothingStaged), run + [Notify(Warning, NothingStagedText)])
        else StagedDiff(Ok(Staged(folders[0], diff)), run)
  }

  /** What `existsSync` and `readFile` give for a listed untracked file. */
  datatype FileEntry = Readable(content: string) | ReadFails(error: string)

  const UntrackedCommand := "git ls-files --others --exclude-standard"
  const UnstagedCommand := "git diff"
  const NoChangesText := "No unstaged or untracked changes found."
  const ChangesFailedPrefix := "Failed to get changes: "

  /** The text appended for one untracked file. */
  function NewFileBlock(name: string, content: string): string {
    "\n\n--- New file: " + name + " --\n" + content
  }

  /** The blocks of the listed files that exist, in listing order (`files` lacks the ones that do not). */
  function NewFileBlocks(names: seq<string>, files: map<string, FileEntry>): string {
    if |names| == 0 then ""
    else
      var last := names[|names| - 1];
      var rest := NewFileBlocks(names[..|names| - 1], files);
      if last in files && files[last].Readable? then rest + NewFileBlock(last, files[last].content) else rest
  }

  /** The error of the first listed file that exists but cannot be read. */
  function FirstReadFailure(names: seq<string>, files: map<string, FileEntry>): Option<string> {
    if |names| == 0 then None
    else
      var last := names[|names| - 1];
      var rest := FirstReadFailure(names[..|names| - 1], files);
      if rest.Some? then rest
      else if last in files && files[last].ReadFails? then Some(files[last].error)
      else None
  }

  /** What the `git diff` output adds: nothing when it failed or printed nothing. */
  function UnstagedPart(unstaged: ExecResult): string {
    if unstaged.Stdout? && unstaged.text != "" then "\n" + unstaged.text else ""
  }

  /** Blocks for consecutive parts of the listing are concatenated in the same order. */
  lemma {:induction false} NewFileBlocksAppend(a: seq<string>, b: seq<string>, files: map<string, FileEntry>)
    ensures NewFileBlocks(a + b, files) == NewFileBlocks(a, files) + NewFileBlocks(b, files)
    decreases |b|
  {
    if |b| == 0 {
      assert a + b == a;
    } else {
      var b' := b[..|b| - 1];
      var last := b[|b| - 1];
      assert (a + b)[..|a + b| - 1] == a + b';
      assert (a + b)[|a + b| - 1] == last;
      NewFileBlocksAppend(a, b', files);
      var tail := if last in files && files[last].Readable? then NewFileBlock(last, files[last].content) else "";
      assert NewFileBlocks(a + b, files) == NewFileBlocks(a + b', files) + tail;
      assert NewFileBlocks(b, files) == NewFileBlocks(b', files) + tail;
    }
  }

  /**
   * `getDiffFromWorkSpace`: without a folder it shows an error and returns
   * ''; a failing listing or an unreadable untracked file ends it with a
   * warning and ''; otherwise it appends one block per existing untracked
   * file in listing order, then the `git diff` output, and returns that
   * trimmed, or '' with a warning when it is blank.
   */
  method GetDiffFromWorkSpace(folders: seq<string>, listing: ExecResult, files: map<string, FileEntry>, unstaged: ExecResult)
    returns (diff: string, trace: seq<Effect>)
    ensures diff == "" || (!IsBlank(diff) && Trim(diff) == diff)
    ensures folders == [] ==> diff == "" && trace == [Notify(Error, NoWorkspaceText)]
    ensures folders != [] && listing.ExecFailed? ==>
      diff == "" && trace == [Exec(UntrackedCommand, Some(folders[0])), Notify(Warning, ChangesFailedPrefix + listing.error)]
    ensures folders != [] && listing.Stdout? && FirstReadFailure(Lines(listing.text), files).Some? ==>
      && diff == ""
      && trace == [ Exec(UntrackedCommand, Some(folders[0])),
                    Notify(Warning, ChangesFailedPrefix + FirstReadFailure(Lines(listing.text), files).value) ]
    ensures folders != [] && listing.Stdout? && FirstReadFailure(Lines(listing.text), files).None? ==>
      var assembled := NewFileBlocks(Lines(listing.text), files) + UnstagedPart(unstaged);
      && diff == Trim(assembled)
      && |trace| >= 2
      && trace[..2] == [Exec(UntrackedCommand, Some(folders[0])), Exec(UnstagedCommand, Some(folders[0]))]
      && (IsBlank(assembled) <==> trace[2..] == [Notify(Warning, NoChangesText)])
      && (!IsBlank(assembled) <==> |trace| == 2)
  {
    if folders == [] {
      return "", [Notify(Error, NoWorkspaceText)];
    }
    var cwd := folders[0];
    trace := [Exec(UntrackedCommand, Some(cwd))];
    if listing.ExecFailed? {
      return "", trace + [Notify(Warning, ChangesFailedPrefix + listing.error)];
    }
    var names := Lines(listing.text);
    var acc, failure := CollectNewFiles(names, files);
    if failure.Some? {
      return "", trace + [Notify(Warning, ChangesFailedPrefix + failure.value)];
    }
    trace := trace + [Exec(UnstagedCommand, Some(cwd))];
    acc := acc + UnstagedPart(unstaged);
    if IsBlank(acc) {
      return "", trace + [Notify(Warning, NoChangesText)];
    }
    TrimIdempotent(acc);
    diff := Trim(acc);
  }

  /**
   * The loop over the listed untracked files: the blocks of those that
   * exist, in order, unless reading one fails, which stops the loop with
   * that file's error.
   */
  method CollectNewFiles(names: seq<string>, files: map<string, FileEntry>) returns (acc: string, failure: Option<string>)
    ensures failure == FirstReadFailure(names, files)
    ensures failure.None? ==> acc == NewFileBlocks(names, files)
  {
    acc := "";
    var i := 0;
    while i < |names|
      invariant 0 <= i <= |names|
      invariant FirstReadFailure(names[..i], files).None?
      invariant acc == NewFileBlocks(names[..i], files)
    {
      var name := names[i];
      assert names[..i + 1][..i] == names[..i];
      if name in files {
        match files[name]
        case ReadFails(e) =>
          FailureStops(names, i + 1, files);
          return acc, Some(e);
        case Readable(content) =>
          acc := acc + NewFileBlock(name, content);
      }
      i := i + 1;
    }
    assert names[..i] == names;
    return acc, None;
  }

  /** A read failure among the first `n` names is the first one of the whole listing. */
  lemma {:induction false} FailureStops(names: seq<string>, n: nat, files: map<string, FileEntry>)
    requires 0 < n <= |names|
    requires FirstReadFailure(names[..n - 1], files).None?
    requires names[n - 1] in files && files[names[n - 1]].ReadFails?
    ensures FirstReadFailure(names, files) == Some(files[names[n - 1]].error)
    decreases |names|
  {
    if n < |names| {
      assert names[..|names| - 1][..n] == names[..n];
      assert names[..|names| - 1][..n - 1] == names[..n - 1];
      FailureStops(names[..|names| - 1], n, files);
    } else {
      assert names[..n] == names;
    }
  }
}
