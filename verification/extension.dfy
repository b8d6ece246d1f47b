/**
 * The command handlers of src/extension.ts and the routing of panel
 * messages to them.  Each handler is a pure function from the outcomes of
 * its collaborators (the process runner, the Git extension, the backend) to
 * the trace of effects it produces.
 */
module Extension {
  import opened Results
  import opened JsText
  import opened Effects
  import opened Services
  import opened Helpers

  // ---------------------------------------------------------------------
  // Generate message (extension.ts:16-57)
  // ---------------------------------------------------------------------

  /** The settings the generate-message command reads. */
  datatype Settings = Settings(
    backendUrl: string, authToken: string, format: string, commitType: string,
    maxLen: int, apiKey: string, prompt: string, model: string)

  const MessagesPath := "/commit-messages"
  const GitDiffFailedPrefix := "Failed to get Git diff: "
  const FetchMessageFailedPrefix := "Failed to fetch message: "

  /** What the command hands to `fetchMessage` for a given diff. */
  function MessageConfigFor(settings: Settings, diff: string): MessageConfig {
    MessageConfig(settings.backendUrl + MessagesPath, settings.authToken, settings.format,
                  settings.commitType, settings.maxLen, settings.apiKey, settings.prompt,
                  settings.model, diff)
  }

  /** The staged diff is there and not blank, so the command goes on to the backend. */
  predicate DiffUsable(folders: seq<string>, staged: ExecResult) {
    folders != [] && staged.Stdout? && !IsBlank(staged.text)
  }

  /** The trimmed output of `git diff --staged`, when it ran. */
  function DiffText(staged: ExecResult): string {
    if staged.Stdout? then Trim(staged.text) else ""
  }

  /** What the backend made of the trimmed diff. */
  function Generated(settings: Settings, staged: ExecResult, reply: Reply): Result<string> {
    FetchMessage(MessageConfigFor(settings, DiffText(staged)), reply).result
  }

  /** The effects once the diff was found: one request, then the text or an error. */
  function FetchPhase(settings: Settings, diff: string, reply: Reply): seq<Effect> {
    var x := FetchMessage(MessageConfigFor(settings, diff), reply);
    match x.result
    case Ok(m) => [Send(x.request), Post(UpdateInput(m))]
    case Err(e) => [Send(x.request), Notify(Error, FetchMessageFailedPrefix + Rendered(e))]
  }

  /**
   * The body of the generate-message command.  `stopEarly` says whether
   * `stopLoading` is also posted on the two early returns (no workspace
   * folder, blank diff); the command as written does not.
   */
  function GenerateRun(settings: Settings, folders: seq<string>, staged: ExecResult, reply: Reply, stopEarly: bool): (t: seq<Effect>)
    ensures |t| >= 1 && t[0] == Post(StartLoading)
  {
    var lookup := GetStagedDiffOrShowError(folders, staged);
    var start := [Post(StartLoading)] + lookup.trace;
    match lookup.outcome
    case Err(e) => start + [Post(StopLoading), Notify(Error, GitDiffFailedPrefix + e)]
    case Ok(Staged(_, diff)) => start + FetchPhase(settings, Trim(diff), reply) + [Post(StopLoading)]
    case Ok(_) => if stopEarly then start + [Post(StopLoading)] else start
  }

  /**
   * What one run shows the panel, the backend and the user: `startLoading`
   * first; `updateInput` with the backend's text exactly when the diff was
   * usable and the backend answered; `stopLoading` after a usable diff or a
   * failing `git diff` (and, when `stopEarly`, always); exactly one request,
   * carrying the trimmed diff, exactly when the diff was usable; and no
   * notification exactly when a message was produced.
   */
  lemma {:induction false} GenerateRunEffects(settings: Settings, folders: seq<string>, staged: ExecResult, reply: Reply, stopEarly: bool)
    ensures var t := GenerateRun(settings, folders, staged, reply, stopEarly);
      var usable := DiffUsable(folders, staged);
      var r := Generated(settings, staged, reply);
      && Posts(t) == [StartLoading]
                     + (if usable && r.Ok? then [UpdateInput(r.value)] else [])
                     + (if usable || (folders != [] && staged.ExecFailed?) || stopEarly then [StopLoading] else [])
      && Sends(t) == (if usable then [Send(MessageRequest(MessageConfigFor(settings, DiffText(staged))))] else [])
      && (Notices(t) == [] <==> usable && r.Ok?)
  {
    if DiffUsable(folders, staged) {
      GenerateUsableEffects(settings, folders, staged, reply, stopEarly);
    } else if folders != [] && staged.ExecFailed? {
      GenerateGitFailedEffects(settings, folders, staged, reply, stopEarly);
    } else {
      GenerateEarlyEffects(settings, folders, staged, reply, stopEarly);
    }
  }

  lemma GenerateUsableEffects(settings: Settings, folders: seq<string>, staged: ExecResult, reply: Reply, stopEarly: bool)
    requires DiffUsable(folders, staged)
    ensures var t := GenerateRun(settings, folders, staged, reply, stopEarly);
      var r := Generated(settings, staged, reply);
      && Posts(t) == [StartLoading] + (if r.Ok? then [UpdateInput(r.value)] else []) + [StopLoading]
      && Sends(t) == [Send(MessageRequest(MessageConfigFor(settings, DiffText(staged))))]
      && (Notices(t) == [] <==> r.Ok?)
  {
    var lookup := GetStagedDiffOrShowError(folders, staged);
    var start := [Post(StartLoading)] + lookup.trace;
    LookupEffects(folders, staged);
    var diff := staged.text;
    var tail := FetchPhase(settings, Trim(diff), reply) + [Post(StopLoading)];
    assert GenerateRun(settings, folders, staged, reply, stopEarly) == start + tail;
    PhaseEffects(settings, Trim(diff), reply);
    EffectsAppend(start, tail);
  }

  lemma GenerateGitFailedEffects(settings: Settings, folders: seq<string>, staged: ExecResult, reply: Reply, stopEarly: bool)
    requires folders != [] && staged.ExecFailed?
    ensures var t := GenerateRun(settings, folders, staged, reply, stopEarly);
      && Posts(t) == [StartLoading, StopLoading]
      && Sends(t) == []
      && Notices(t) == [Notify(Error, GitDiffFailedPrefix + staged.error)]
  {
    var lookup := GetStagedDiffOrShowError(folders, staged);
    var start := [Post(StartLoading)] + lookup.trace;
    LookupEffects(folders, staged);
    var tail := [Post(StopLoading), Notify(Error, GitDiffFailedPrefix + staged.error)];
    assert GenerateRun(settings, folders, staged, reply, stopEarly) == start + tail;
    EffectsAppend(start, tail);
    EffectsAppend([tail[0]], [tail[1]]);
    EffectsSingle(tail[0]);
    EffectsSingle(tail[1]);
  }

  lemma GenerateEarlyEffects(settings: Settings, folders: seq<string>, staged: ExecResult, reply: Reply, stopEarly: bool)
    requires !DiffUsable(folders, staged) && !(folders != [] && staged.ExecFailed?)
    ensures var t := GenerateRun(settings, folders, staged, reply, stopEarly);
      && Posts(t) == [StartLoading] + (if stopEarly then [StopLoading] else [])
      && Sends(t) == []
      && Notices(t) != []
  {
    var lookup := GetStagedDiffOrShowError(folders, staged);
    var start := [Post(StartLoading)] + lookup.trace;
    LookupEffects(folders, staged);
    var tail := if stopEarly then [Post(StopLoading)] else [];
    assert GenerateRun(settings, folders, staged, reply, stopEarly) == start + tail;
    EffectsAppend(start, tail);
    EffectsSingle(Post(StopLoading));
  }

  /** The lookup part of a run: `startLoading`, then no post and no request; a notification exactly on the early returns. */
  lemma LookupEffects(folders: seq<string>, staged: ExecResult)
    ensures var lookup := GetStagedDiffOrShowError(folders, staged);
      var start := [Post(StartLoading)] + lookup.trace;
      && Posts(start) == [StartLoading]
      && Sends(start) == []
      && (Notices(start) == [] <==> lookup.outcome.Err? || lookup.outcome.value.Staged?)
  {
    var lookup := GetStagedDiffOrShowError(folders, staged);
    var head := [Post(StartLoading)];
    PostsNone(lookup.trace);
    OnlyNone(lookup.trace, IsSend);
    OnlyNone(head, IsSend);
    OnlyNone(head, IsNotice);
    PostsAppend(head, lookup.trace);
    OnlyAppend(head, lookup.trace, IsSend);
    OnlyAppend(head, lookup.trace, IsNotice);
    if lookup.outcome.Err? || lookup.outcome.value.Staged? {
      OnlyNone(lookup.trace, IsNotice);
    } else if folders == [] {
      assert lookup.trace[0] in lookup.trace;
    } else {
      assert lookup.trace[1] in lookup.trace;
    }
  }

  /** The backend part of a run: one request, the text exactly on success, a notification exactly on failure, then `stopLoading`. */
  lemma PhaseEffects(settings: Settings, diff: string, reply: Reply)
    ensures var phase := FetchPhase(settings, diff, reply) + [Post(StopLoading)];
      var r := FetchMessage(MessageConfigFor(settings, diff), reply).result;
      && Posts(phase) == (if r.Ok? then [UpdateInput(r.value)] else []) + [StopLoading]
      && Sends(phase) == [Send(MessageRequest(MessageConfigFor(settings, diff)))]
      && (Notices(phase) == [] <==> r.Ok?)
  {
    var phase := FetchPhase(settings, diff, reply);
    var stop := [Post(StopLoading)];
    PostsAppend(phase, stop);
    OnlyAppend(phase, stop, IsSend);
    OnlyAppend(phase, stop, IsNotice);
    OnlyNone(stop, IsNotice);
    assert phase == [phase[0]] + [phase[1]];
    PostsAppend([phase[0]], [phase[1]]);
    OnlyAppend([phase[0]], [phase[1]], IsSend);
    OnlyAppend([phase[0]], [phase[1]], IsNotice);
  }

  /** The generate-message command as written. */
  function GenerateMessage(settings: Settings, folders: seq<string>, staged: ExecResult, reply: Reply): (t: seq<Effect>)
    ensures |t| >= 1 && t[0] == Post(StartLoading)
    ensures Bracketed(Posts(t), StartLoading, StopLoading) <==>
      DiffUsable(folders, staged) || (folders != [] && staged.ExecFailed?)
  {
    GenerateRunEffects(settings, folders, staged, reply, false);
    GenerateRun(settings, folders, staged, reply, false)
  }

  /**
   * The command as written leaves the panel loading after either early
   * return: with no workspace folder, or with nothing staged, the only panel
   * message is `startLoading`.
   */
  lemma GenerateLeavesLoading(settings: Settings, folders: seq<string>, staged: ExecResult, reply: Reply)
    requires folders == [] || (staged.Stdout? && IsBlank(staged.text))
    ensures Posts(GenerateMessage(settings, folders, staged, reply)) == [StartLoading]
  {
    GenerateRunEffects(settings, folders, staged, reply, false);
  }

  /** A concrete run: no folder open, and the loading state is never left. */
  lemma GenerateLeavesLoadingExample(settings: Settings)
    ensures var t := GenerateMessage(settings, [], Stdout(""), Unreachable(""));
      t == [Post(StartLoading), Notify(Error, NoWorkspaceText)] && Post(StopLoading) !in t
  {
  }

  /**
   * The generate-message command with `stopLoading` also posted on the early
   * returns: whatever git and the backend do, the panel's loading state is
   * entered first and left last, and the text arrives in between exactly
   * when there was one.
   */
  function GenerateMessageFixed(settings: Settings, folders: seq<string>, staged: ExecResult, reply: Reply): (t: seq<Effect>)
    ensures |t| >= 1 && t[0] == Post(StartLoading)
    ensures Bracketed(Posts(t), StartLoading, StopLoading)
    ensures (exists v :: UpdateInput(v) in Posts(t)) <==>
      DiffUsable(folders, staged) && Generated(settings, staged, reply).Ok?
    ensures forall v :: UpdateInput(v) in Posts(t) ==> Generated(settings, staged, reply) == Ok(v)
  {
    GenerateRunEffects(settings, folders, staged, reply, true);
    GenerateRun(settings, folders, staged, reply, true)
  }

  /** The corrected command posts only the generate loading messages and the text. */
  lemma GenerateFixedPostsOnly(settings: Settings, folders: seq<string>, staged: ExecResult, reply: Reply)
    ensures var posts := Posts(GenerateMessageFixed(settings, folders, staged, reply));
      forall i :: 0 <= i < |posts| ==> posts[i].StartLoading? || posts[i].StopLoading? || posts[i].UpdateInput?
  {
    GenerateRunEffects(settings, folders, staged, reply, true);
  }

  /** The correction changes nothing but the early returns, where it appends `stopLoading`. */
  lemma GenerateFixedExtends(settings: Settings, folders: seq<string>, staged: ExecResult, reply: Reply)
    ensures var fixed := GenerateMessageFixed(settings, folders, staged, reply);
      var asWritten := GenerateMessage(settings, folders, staged, reply);
      if DiffUsable(folders, staged) || (folders != [] && staged.ExecFailed?) then fixed == asWritten
      else fixed == asWritten + [Post(StopLoading)]
  {
  }

  // ---------------------------------------------------------------------
  // Commit action (extension.ts:85-175)
  // ---------------------------------------------------------------------

  /** The `data` argument; an absent field reads as "" (both are falsy). */
  datatype CommitData = CommitData(action: string, message: string)

  /** The `SCM_ACTIONS` values, and any other string. */
  datatype Action = CommitOnly | CommitAndPush | CommitAll | Unknown(name: string)

  function ParseAction(s: string): (a: Action)
    ensures a.Unknown? ==> a.name == s
  {
    if s == "commit" then CommitOnly
    else if s == "commitAndPush" then CommitAndPush
    else if s == "commitAll" then CommitAll
    else Unknown(s)
  }

  /** `repository.state`; `indexChanges` is absent or an array of that many changes. */
  datatype RepoState = RepoState(indexChanges: Option<nat>)

  /**
   * The first repository of the Git API, as the handler sees it.  The
   * handler reads the staged changes of `commitAndPush` and `commitAll` from
   * a field of the repository object itself, not from its state; those reads
   * are separate inputs.
   */
  datatype Repository = Repository(
    status: Outcome,                    // `await repository.status()`
    state: Option<RepoState>,           // `repository.state` afterwards
    indexChanges: Option<nat>,          // `repository.indexChanges` before committing (line 141)
    indexChangesAfterAdd: Option<nat>,  // `repository.indexChanges` after `add(['.'])` (line 156)
    add: Outcome,
    commit: Outcome,
    push: Outcome)

  /** `vscode.extensions.getExtension('vscode.git')` when present. */
  datatype GitExtension = GitExtension(isActive: bool, activation: Outcome)

  /** Everything the commit handler learns from its collaborators. */
  datatype GitEnv = GitEnv(gitVersion: ExecResult, extension: Option<GitExtension>, repositories: seq<Repository>)

  const VersionCommand := "git --version"
  const NoIntent := "No commit action or message provided."
  const ScmFailedPrefix := "SCM action failed: "
  const GitMissing := "Git is not installed or not found in PATH. Please install Git and ensure it\U{2019}s accessible."
  const NoGitExtension := "VS Code Git extension not found. Please enable it."
  const NoRepository := "No Git repository found. Please initialize a repository (git init)."
  const NoState := "Failed to retrieve repository state. Ensure the repository is valid and try again."
  /** What reading `.length` of an absent `indexChanges` (line 128) throws. */
  const UndefinedLength := "Cannot read properties of undefined (reading 'length')"
  const NoStagedChanges := "No staged changes found. Please stage changes (git add)."
  const NoChangesToCommit := "No changes to commit. Please make changes and try again."
  const UnknownActionPrefix := "Unknown SCM action: "
  const Committed := "Changes committed."
  const CommittedAndPushed := "Changes committed and pushed."
  const PushFailedPrefix := "Changes committed locally, but push failed: "
  const AllCommitted := "All changes committed."

  /** Both fields present and non-empty. */
  predicate ValidIntent(data: Option<CommitData>) {
    data.Some? && data.value.action != "" && data.value.message != ""
  }

  /** Every check before the switch passes: git runs, the extension is there and active, a repository with a readable state exists. */
  predicate Ready(env: GitEnv) {
    && env.gitVersion.Stdout?
    && env.extension.Some?
    && (env.extension.value.isActive || env.extension.value.activation.Done?)
    && |env.repositories| > 0
    && env.repositories[0].status.Done?
    && env.repositories[0].state.Some?
    && env.repositories[0].state.value.indexChanges.Some?
  }

  /** JavaScript truthiness of `x && x.length !== 0` for an optional array length. */
  predicate HasEntries(count: Option<nat>) {
    count.Some? && count.value > 0
  }

  /** The staged-change check of the chosen branch passes (for `commitAll`, after staging everything). */
  predicate StagedFor(action: Action, repo: Repository)
    requires repo.state.Some? && repo.state.value.indexChanges.Some?
  {
    match action
    case CommitOnly => repo.state.value.indexChanges.value > 0
    case CommitAndPush => HasEntries(repo.indexChanges)
    case CommitAll => repo.add.Done? && HasEntries(repo.indexChangesAfterAdd)
    case Unknown(_) => false
  }

  /**
   * The first check before the switch that fails, in the order the handler
   * makes them, and what it throws.
   */
  function PreCheck(env: GitEnv): (failure: Option<string>)
    ensures failure.None? <==> Ready(env)
  {
    if env.gitVersion.ExecFailed? then Some(GitMissing)
    else if env.extension.None? then Some(NoGitExtension)
    else if !env.extension.value.isActive && env.extension.value.activation.Threw? then
      Some(env.extension.value.activation.error)
    else if |env.repositories| == 0 then Some(NoRepository)
    else if env.repositories[0].status.Threw? then Some(env.repositories[0].status.error)
    else if env.repositories[0].state.None? then Some(NoState)
    else if env.repositories[0].state.value.indexChanges.None? then Some(UndefinedLength)
    else None
  }

  /** The effects of the `try` block, and the message of what it threw, if anything. */
  datatype Attempt = Attempt(trace: seq<Effect>, thrown: Option<string>)

  /** No panel message and no request among these effects. */
  predicate GitAndNoticesOnly(trace: seq<Effect>) {
    forall i :: 0 <= i < |trace| ==> !trace[i].Post? && !trace[i].Send?
  }

  /** A notification only as the last effect, and exactly there when nothing was thrown. */
  predicate NoticeLastIffDone(a: Attempt) {
    && (forall i :: 0 <= i < |a.trace| - 1 ==> !a.trace[i].Notify?)
    && (a.thrown.None? <==> |a.trace| > 0 && a.trace[|a.trace| - 1].Notify?)
  }

  /** Every commit among these effects carries `message`. */
  predicate CommitsCarry(trace: seq<Effect>, message: string) {
    forall e :: e in trace && e.Git? && e.call.Commit? ==> e.call.message == message
  }

  /** A commit, then what follows a successful one. */
  function CommitThen(message: string, commit: Outcome, after: seq<Effect>): Attempt {
    match commit
    case Threw(e) => Attempt([Git(Commit(message))], Some(e))
    case Done => Attempt([Git(Commit(message))] + after, None)
  }

  /** The `switch`, once the repository state has been read. */
  function Execute(action: Action, message: string, repo: Repository): (a: Attempt)
    requires repo.state.Some? && repo.state.value.indexChanges.Some?
    ensures |a.trace| <= 3
    ensures a.thrown.None? <==> StagedFor(action, repo) && repo.commit.Done?
  {
    match action
    case CommitOnly =>
      if repo.state.value.indexChanges.value == 0 then Attempt([], Some(NoStagedChanges))
      else CommitThen(message, repo.commit, [Notify(Information, Committed)])
    case CommitAndPush =>
      if !HasEntries(repo.indexChanges) then Attempt([], Some(NoStagedChanges))
      else
        var pushed :=
          match repo.push
          case Done => [Git(Push), Notify(Information, CommittedAndPushed)]
          case Threw(e) => [Git(Push), Notify(Warning, PushFailedPrefix + e)];
        CommitThen(message, repo.commit, pushed)
    case CommitAll =>
      var add := [Git(Add(["."]))];
      if repo.add.Threw? then Attempt(add, Some(repo.add.error))
      else if !HasEntries(repo.indexChangesAfterAdd) then Attempt(add, Some(NoChangesToCommit))
      else
        var c := CommitThen(message, repo.commit, [Notify(Information, AllCommitted)]);
        Attempt(add + c.trace, c.thrown)
    case Unknown(name) => Attempt([], Some(UnknownActionPrefix + name))
  }

  /**
   * The switch only calls Git and notifies; its one notification comes
   * last, exactly when it finished; and it commits the given message
   * exactly when the action finds staged changes.
   */
  lemma ExecuteShape(action: Action, message: string, repo: Repository)
    requires repo.state.Some? && repo.state.value.indexChanges.Some?
    ensures var a := Execute(action, message, repo);
      && GitAndNoticesOnly(a.trace) && NoticeLastIffDone(a)
      && (Commits(a.trace) <==> StagedFor(action, repo))
      && CommitsCarry(a.trace, message)
  {
  }

  /** The Git extension's activation, when it is not active yet. */
  function Activation(ext: GitExtension): seq<Effect> {
    if ext.isActive then [] else [Git(Activate)]
  }

  /** The Git calls before the switch once every check passed: activation if needed, then `status`. */
  function SetupCalls(ext: GitExtension): seq<Effect> {
    Activation(ext) + [Git(Status)]
  }

  /**
   * The `try` block: the checks in their fixed order (git runs, the Git
   * extension exists and activates, a repository exists, its state and
   * staged list can be read), then the switch.
   */
  function ScmSteps(data: CommitData, env: GitEnv): (a: Attempt)
    ensures |a.trace| >= 1 && a.trace[0] == Exec(VersionCommand, None)
    ensures !Ready(env) ==> a.thrown == PreCheck(env)
    ensures a.thrown.None? <==>
      Ready(env) && StagedFor(ParseAction(data.action), env.repositories[0]) && env.repositories[0].commit.Done?
  {
    var probe := [Exec(VersionCommand, None)];
    if env.gitVersion.ExecFailed? then Attempt(probe, Some(GitMissing))
    else if env.extension.None? then Attempt(probe, Some(NoGitExtension))
    else
      var ext := env.extension.value;
      if !ext.isActive && ext.activation.Threw? then Attempt(probe + [Git(Activate)], Some(ext.activation.error))
      else if |env.repositories| == 0 then Attempt(probe + Activation(ext), Some(NoRepository))
      else
        var repo := env.repositories[0];
        var inspected := probe + SetupCalls(ext);
        if repo.status.Threw? then Attempt(inspected, Some(repo.status.error))
        else if repo.state.None? then Attempt(inspected, Some(NoState))
        else if repo.state.value.indexChanges.None? then Attempt(inspected, Some(UndefinedLength))
        else
          var x := Execute(ParseAction(data.action), data.message, repo);
          Attempt(inspected + x.trace, x.thrown)
  }

  /** Once every check passed, the block is `git --version`, the setup calls, then the switch. */
  lemma ScmStepsReady(data: CommitData, env: GitEnv)
    requires Ready(env)
    ensures var x := Execute(ParseAction(data.action), data.message, env.repositories[0]);
      ScmSteps(data, env) == Attempt([Exec(VersionCommand, None)] + SetupCalls(env.extension.value) + x.trace, x.thrown)
  {
  }

  /** The block only runs git, calls Git and notifies, and its one notification comes last, exactly when it finished. */
  lemma ScmStepsEffects(data: CommitData, env: GitEnv)
    ensures var a := ScmSteps(data, env);
      GitAndNoticesOnly(a.trace) && NoticeLastIffDone(a)
  {
    if Ready(env) {
      var x := Execute(ParseAction(data.action), data.message, env.repositories[0]);
      ExecuteShape(ParseAction(data.action), data.message, env.repositories[0]);
      ScmStepsReady(data, env);
      var head := [Exec(VersionCommand, None)] + SetupCalls(env.extension.value);
      assert forall i :: 0 <= i < |head| ==> !head[i].Post? && !head[i].Send? && !head[i].Notify?;
    }
  }

  /**
   * The block commits exactly when every check passes and the action finds
   * staged changes, and only ever the given message; when a check fails it
   * makes no Git call other than activation and `status`.
   */
  lemma ScmStepsCommits(data: CommitData, env: GitEnv)
    ensures var a := ScmSteps(data, env);
      && (Commits(a.trace) <==> Ready(env) && StagedFor(ParseAction(data.action), env.repositories[0]))
      && CommitsCarry(a.trace, data.message)
      && (!Ready(env) ==> forall e :: e in a.trace && e.Git? ==> e.call.Activate? || e.call.Status?)
  {
    if Ready(env) {
      var x := Execute(ParseAction(data.action), data.message, env.repositories[0]);
      ExecuteShape(ParseAction(data.action), data.message, env.repositories[0]);
      ScmStepsReady(data, env);
      var head := [Exec(VersionCommand, None)] + SetupCalls(env.extension.value);
      assert forall e :: e in head + x.trace <==> e in head || e in x.trace;
      assert forall e :: e in head && e.Git? ==> !e.call.Commit?;
    }
  }

  /** The notification shown when the `try` block threw. */
  function Failure(a: Attempt): seq<Effect> {
    if a.thrown.Some? then [Notify(Error, ScmFailedPrefix + a.thrown.value)] else []
  }

  /**
   * The commit-action command.  Without an action or a message it shows one
   * error and does nothing else; otherwise it runs the `try` block between
   * `startCommitLoading` and `stopCommitLoading` (posted only when the panel
   * exists) and reports what the block threw.
   */
  function CommitAction(data: Option<CommitData>, hasPanel: bool, env: GitEnv): (t: seq<Effect>)
    ensures !ValidIntent(data) ==> t == [Notify(Error, NoIntent)]
    ensures ValidIntent(data) && hasPanel ==>
      && |t| >= 3
      && t[0] == Post(StartCommitLoading)
      && t[1] == Exec(VersionCommand, None)
      && t[|t| - 1] == Post(StopCommitLoading)
    ensures ValidIntent(data) && !hasPanel ==> |t| >= 1 && t[0] == Exec(VersionCommand, None)
  {
    if !ValidIntent(data) then [Notify(Error, NoIntent)]
    else Wrap(ScmSteps(data.value, env), hasPanel)
  }

  /** The `try` block and its failure report, between the two commit-loading messages when the panel exists. */
  function Wrap(a: Attempt, hasPanel: bool): seq<Effect> {
    var open := if hasPanel then [Post(StartCommitLoading)] else [];
    var close := if hasPanel then [Post(StopCommitLoading)] else [];
    open + a.trace + Failure(a) + close
  }

  /** The wrapper adds the failure report to the block's notifications. */
  lemma WrapNotices(a: Attempt, hasPanel: bool)
    ensures Notices(Wrap(a, hasPanel)) == Notices(a.trace) + Failure(a)
  {
    var open := if hasPanel then [Post(StartCommitLoading)] else [];
    var close := if hasPanel then [Post(StopCommitLoading)] else [];
    OnlyAppend(open + a.trace + Failure(a), close, IsNotice);
    OnlyAppend(open + a.trace, Failure(a), IsNotice);
    OnlyAppend(open, a.trace, IsNotice);
    OnlyNone(open, IsNotice);
    OnlyNone(close, IsNotice);
    if a.thrown.Some? {
      EffectsSingle(Failure(a)[0]);
    }
  }

  /** The wrapper adds no Git call. */
  lemma WrapGitCalls(a: Attempt, hasPanel: bool)
    ensures GitCalls(Wrap(a, hasPanel)) == GitCalls(a.trace)
  {
    var open := if hasPanel then [Post(StartCommitLoading)] else [];
    var close := if hasPanel then [Post(StopCommitLoading)] else [];
    OnlyAppend(open + a.trace + Failure(a), close, IsGitCall);
    OnlyAppend(open + a.trace, Failure(a), IsGitCall);
    OnlyAppend(open, a.trace, IsGitCall);
    OnlyNone(open, IsGitCall);
    OnlyNone(close, IsGitCall);
    OnlyNone(Failure(a), IsGitCall);
  }

  /** The wrapper adds the two commit-loading messages, when the panel exists, around the block's posts. */
  lemma WrapPosts(a: Attempt, hasPanel: bool)
    ensures Posts(Wrap(a, hasPanel)) ==
      (if hasPanel then [StartCommitLoading] else []) + Posts(a.trace) + (if hasPanel then [StopCommitLoading] else [])
  {
    var open := if hasPanel then [Post(StartCommitLoading)] else [];
    var close := if hasPanel then [Post(StopCommitLoading)] else [];
    PostsAppend(open + a.trace + Failure(a), close);
    PostsAppend(open + a.trace, Failure(a));
    PostsAppend(open, a.trace);
    PostsNone(Failure(a));
    if hasPanel {
      EffectsSingle(open[0]);
      EffectsSingle(close[0]);
    }
  }

  /** The Git calls among the wrapper's effects are those of the block. */
  lemma WrapGitMembers(a: Attempt, hasPanel: bool)
    ensures forall e :: e in Wrap(a, hasPanel) && e.Git? <==> e in a.trace && e.Git?
  {
    var open := if hasPanel then [Post(StartCommitLoading)] else [];
    var close := if hasPanel then [Post(StopCommitLoading)] else [];
    assert forall e :: e in Wrap(a, hasPanel) <==> e in open || e in a.trace || e in Failure(a) || e in close;
  }

  /** The wrapper sends no request. */
  lemma WrapSends(a: Attempt, hasPanel: bool)
    ensures Sends(Wrap(a, hasPanel)) == Sends(a.trace)
  {
    var open := if hasPanel then [Post(StartCommitLoading)] else [];
    var close := if hasPanel then [Post(StopCommitLoading)] else [];
    OnlyAppend(open + a.trace + Failure(a), close, IsSend);
    OnlyAppend(open + a.trace, Failure(a), IsSend);
    OnlyAppend(open, a.trace, IsSend);
    OnlyNone(open, IsSend);
    OnlyNone(close, IsSend);
    OnlyNone(Failure(a), IsSend);
  }

  /** Exactly one notification in a run of the `try` block plus its failure report. */
  lemma AttemptNotices(a: Attempt)
    requires NoticeLastIffDone(a)
    ensures |Only(a.trace, IsNotice)| + |Failure(a)| == 1
  {
    if a.thrown.None? {
      var k := |a.trace| - 1;
      assert a.trace == a.trace[..k] + [a.trace[k]];
      OnlyAppend(a.trace[..k], [a.trace[k]], IsNotice);
      OnlyNone(a.trace[..k], IsNotice);
    } else {
      OnlyNone(a.trace, IsNotice);
    }
  }

  /**
   * Whatever the checks and Git do, a valid request shows exactly one
   * notification, and the panel (when there is one) receives
   * `startCommitLoading` and `stopCommitLoading` and nothing else.
   */
  lemma CommitActionEffects(data: Option<CommitData>, hasPanel: bool, env: GitEnv)
    ensures var t := CommitAction(data, hasPanel, env);
      && |Notices(t)| == 1
      && Posts(t) == (if ValidIntent(data) && hasPanel then [StartCommitLoading, StopCommitLoading] else [])
      && Sends(t) == []
  {
    if ValidIntent(data) {
      var a := ScmSteps(data.value, env);
      ScmStepsEffects(data.value, env);
      AttemptNotices(a);
      OnlyNone(a.trace, IsSend);
      PostsNone(a.trace);
      WrapNotices(a, hasPanel);
      WrapPosts(a, hasPanel);
      WrapSends(a, hasPanel);
    }
  }

  /**
   * A commit happens exactly when the request is valid, every check passes
   * and the chosen action finds changes to commit; it carries the given
   * message.
   */
  lemma CommitActionCommits(data: Option<CommitData>, hasPanel: bool, env: GitEnv)
    ensures var t := CommitAction(data, hasPanel, env);
      && (Commits(t) <==> ValidIntent(data) && Ready(env) && StagedFor(ParseAction(data.value.action), env.repositories[0]))
      && (ValidIntent(data) ==> CommitsCarry(t, data.value.message))
  {
    if ValidIntent(data) {
      var t := CommitAction(data, hasPanel, env);
      var a := ScmSteps(data.value, env);
      ScmStepsCommits(data.value, env);
      WrapGitMembers(a, hasPanel);
    }
  }

  /** What a valid request notifies and which Git calls it makes are those of its `try` block, plus the failure report. */
  lemma CommitActionTally(data: Option<CommitData>, hasPanel: bool, env: GitEnv)
    requires ValidIntent(data)
    ensures var t := CommitAction(data, hasPanel, env);
      var a := ScmSteps(data.value, env);
      && Notices(t) == Notices(a.trace) + Failure(a)
      && GitCalls(t) == GitCalls(a.trace)
  {
    var a := ScmSteps(data.value, env);
    WrapNotices(a, hasPanel);
    WrapGitCalls(a, hasPanel);
  }

  /**
   * The checks run in a fixed order and the first that fails ends the
   * request: one "SCM action failed" error naming that check, and no
   * commit, push or add.
   */
  lemma CommitActionStopsAtFirstFailure(data: Option<CommitData>, hasPanel: bool, env: GitEnv)
    requires ValidIntent(data) && PreCheck(env).Some?
    ensures var t := CommitAction(data, hasPanel, env);
      && Notices(t) == [Notify(Error, ScmFailedPrefix + PreCheck(env).value)]
      && forall e :: e in t && e.Git? ==> e.call.Activate? || e.call.Status?
  {
    CommitActionTally(data, hasPanel, env);
    var a := ScmSteps(data.value, env);
    ScmStepsEffects(data.value, env);
    ScmStepsCommits(data.value, env);
    OnlyNone(a.trace, IsNotice);
    WrapGitMembers(a, hasPanel);
  }

  /** An action outside the three known ones is rejected by name once every check passed, and nothing is committed. */
  lemma CommitActionRejectsUnknown(data: Option<CommitData>, hasPanel: bool, env: GitEnv)
    requires ValidIntent(data) && Ready(env) && ParseAction(data.value.action).Unknown?
    ensures var t := CommitAction(data, hasPanel, env);
      && Notices(t) == [Notify(Error, ScmFailedPrefix + UnknownActionPrefix + data.value.action)]
      && GitCalls(t) == SetupCalls(env.extension.value)
  {
    CommitActionTally(data, hasPanel, env);
    ReadyTally(data.value, env);
    var x := Execute(ParseAction(data.value.action), data.value.message, env.repositories[0]);
    assert x == Attempt([], Some(UnknownActionPrefix + data.value.action));
    assert ScmFailedPrefix + (UnknownActionPrefix + data.value.action)
        == ScmFailedPrefix + UnknownActionPrefix + data.value.action;
  }

  /** Once the checks passed, the notices and Git calls are those of the switch, after the setup calls. */
  lemma ReadyTally(data: CommitData, env: GitEnv)
    requires Ready(env)
    ensures var a := ScmSteps(data, env);
      var x := Execute(ParseAction(data.action), data.message, env.repositories[0]);
      && Notices(a.trace) == Notices(x.trace)
      && GitCalls(a.trace) == SetupCalls(env.extension.value) + GitCalls(x.trace)
      && a.thrown == x.thrown
  {
    var ext := env.extension.value;
    var x := Execute(ParseAction(data.action), data.message, env.repositories[0]);
    var probe := [Exec(VersionCommand, None)];
    ScmStepsReady(data, env);
    EffectsAppend(probe + SetupCalls(ext), x.trace);
    EffectsAppend(probe, SetupCalls(ext));
    EffectsSingle(probe[0]);
    EffectsAppend(Activation(ext), [Git(Status)]);
    EffectsSingle(Git(Status));
    if !ext.isActive {
      EffectsSingle(Git(Activate));
    }
  }

  /**
   * Once the checks passed, a valid request shows what the switch notifies
   * plus its failure report, and makes the setup calls and then the
   * switch's Git calls.
   */
  lemma ReadyActionTally(data: Option<CommitData>, hasPanel: bool, env: GitEnv)
    requires ValidIntent(data) && Ready(env)
    ensures var t := CommitAction(data, hasPanel, env);
      var x := Execute(ParseAction(data.value.action), data.value.message, env.repositories[0]);
      && Notices(t) == Notices(x.trace) + Failure(x)
      && GitCalls(t) == SetupCalls(env.extension.value) + GitCalls(x.trace)
  {
    CommitActionTally(data, hasPanel, env);
    ReadyTally(data.value, env);
  }

  /** The notices and Git calls of two effects in a row. */
  lemma PairTally(a: Effect, b: Effect)
    ensures GitCalls([a, b]) == (if a.Git? then [a] else []) + (if b.Git? then [b] else [])
    ensures Notices([a, b]) == (if a.Notify? then [a] else []) + (if b.Notify? then [b] else [])
  {
    assert [a, b] == [a] + [b];
    EffectsAppend([a], [b]);
    EffectsSingle(a);
    EffectsSingle(b);
  }

  /** The notices and Git calls of three effects in a row. */
  lemma TripleTally(a: Effect, b: Effect, c: Effect)
    ensures GitCalls([a, b, c]) ==
      (if a.Git? then [a] else []) + (if b.Git? then [b] else []) + (if c.Git? then [c] else [])
    ensures Notices([a, b, c]) ==
      (if a.Notify? then [a] else []) + (if b.Notify? then [b] else []) + (if c.Notify? then [c] else [])
  {
    assert [a, b, c] == [a, b] + [c];
    EffectsAppend([a, b], [c]);
    PairTally(a, b);
    EffectsSingle(c);
  }

  /** The switch for `commit`, on the staged count of the repository state. */
  lemma CommitOnlySwitch(message: string, repo: Repository)
    requires repo.state.Some? && repo.state.value.indexChanges.Some?
    ensures var x := Execute(CommitOnly, message, repo);
      var staged := repo.state.value.indexChanges.value > 0;
      && (!staged ==> GitCalls(x.trace) == [] && Notices(x.trace) + Failure(x) == [Notify(Error, ScmFailedPrefix + NoStagedChanges)])
      && (staged ==> GitCalls(x.trace) == [Git(Commit(message))])
      && (staged && repo.commit.Done? ==> Notices(x.trace) + Failure(x) == [Notify(Information, Committed)])
      && (staged && repo.commit.Threw? ==> Notices(x.trace) + Failure(x) == [Notify(Error, ScmFailedPrefix + repo.commit.error)])
  {
    if repo.state.value.indexChanges.value > 0 {
      if repo.commit.Done? {
        PairTally(Git(Commit(message)), Notify(Information, Committed));
      } else {
        EffectsSingle(Git(Commit(message)));
      }
    }
  }

  /** The switch for `commitAndPush`, on the repository's own staged list. */
  lemma CommitAndPushSwitch(message: string, repo: Repository)
    requires repo.state.Some? && repo.state.value.indexChanges.Some?
    ensures var x := Execute(CommitAndPush, message, repo);
      var staged := HasEntries(repo.indexChanges);
      var commit := Git(Commit(message));
      && (!staged ==> GitCalls(x.trace) == [] && Notices(x.trace) + Failure(x) == [Notify(Error, ScmFailedPrefix + NoStagedChanges)])
      && (staged && repo.commit.Threw? ==>
            GitCalls(x.trace) == [commit] && Notices(x.trace) + Failure(x) == [Notify(Error, ScmFailedPrefix + repo.commit.error)])
      && (staged && repo.commit.Done? ==> GitCalls(x.trace) == [commit, Git(Push)])
      && (staged && repo.commit.Done? && repo.push.Done? ==>
            Notices(x.trace) + Failure(x) == [Notify(Information, CommittedAndPushed)])
      && (staged && repo.commit.Done? && repo.push.Threw? ==>
            Notices(x.trace) + Failure(x) == [Notify(Warning, PushFailedPrefix + repo.push.error)])
  {
    var commit := Git(Commit(message));
    if HasEntries(repo.indexChanges) {
      match repo.commit
      case Threw(_) => EffectsSingle(commit);
      case Done =>
        match repo.push
        case Done => TripleTally(commit, Git(Push), Notify(Information, CommittedAndPushed));
        case Threw(e) => TripleTally(commit, Git(Push), Notify(Warning, PushFailedPrefix + e));
    }
  }

  /** The switch for `commitAll`: `add` first, then the staged list as it is afterwards. */
  lemma CommitAllSwitch(message: string, repo: Repository)
    requires repo.state.Some? && repo.state.value.indexChanges.Some?
    ensures var x := Execute(CommitAll, message, repo);
      var staged := repo.add.Done? && HasEntries(repo.indexChangesAfterAdd);
      && GitCalls(x.trace) == [Git(Add(["."]))] + (if staged then [Git(Commit(message))] else [])
      && (repo.add.Done? && !HasEntries(repo.indexChangesAfterAdd) ==>
            Notices(x.trace) + Failure(x) == [Notify(Error, ScmFailedPrefix + NoChangesToCommit)])
      && (staged && repo.commit.Done? ==> Notices(x.trace) + Failure(x) == [Notify(Information, AllCommitted)])
  {
    var x := Execute(CommitAll, message, repo);
    var add := Git(Add(["."]));
    var commit := Git(Commit(message));
    if repo.add.Threw? || !HasEntries(repo.indexChangesAfterAdd) {
      assert x.trace == [add];
      EffectsSingle(add);
    } else if repo.commit.Done? {
      assert x.trace == [add, commit, Notify(Information, AllCommitted)];
      TripleTally(add, commit, Notify(Information, AllCommitted));
    } else {
      assert x.trace == [add, commit];
      PairTally(add, commit);
    }
  }

  /**
   * `commit` needs staged changes in the repository state: with none it
   * throws and never commits; otherwise it commits the message once and
   * reports success, or reports what the commit threw.
   */
  lemma CommitOnlyOutcome(data: Option<CommitData>, hasPanel: bool, env: GitEnv)
    requires ValidIntent(data) && Ready(env) && ParseAction(data.value.action) == CommitOnly
    ensures var t := CommitAction(data, hasPanel, env);
      var repo := env.repositories[0];
      var setup := SetupCalls(env.extension.value);
      && (repo.state.value.indexChanges.value == 0 ==>
            GitCalls(t) == setup && Notices(t) == [Notify(Error, ScmFailedPrefix + NoStagedChanges)])
      && (repo.state.value.indexChanges.value > 0 ==> GitCalls(t) == setup + [Git(Commit(data.value.message))])
      && (repo.state.value.indexChanges.value > 0 && repo.commit.Done? ==>
            Notices(t) == [Notify(Information, Committed)])
      && (repo.state.value.indexChanges.value > 0 && repo.commit.Threw? ==>
            Notices(t) == [Notify(Error, ScmFailedPrefix + repo.commit.error)])
  {
    ReadyActionTally(data, hasPanel, env);
    CommitOnlySwitch(data.value.message, env.repositories[0]);
  }

  /**
   * `commitAndPush` checks the repository's own staged list.  After a
   * successful commit it always pushes; a failing push is reported as a
   * warning carrying the push error, with no error shown and nothing undone.
   */
  lemma CommitAndPushOutcome(data: Option<CommitData>, hasPanel: bool, env: GitEnv)
    requires ValidIntent(data) && Ready(env) && ParseAction(data.value.action) == CommitAndPush
    ensures var t := CommitAction(data, hasPanel, env);
      var repo := env.repositories[0];
      var setup := SetupCalls(env.extension.value);
      var commit := Git(Commit(data.value.message));
      && (!HasEntries(repo.indexChanges) ==>
            GitCalls(t) == setup && Notices(t) == [Notify(Error, ScmFailedPrefix + NoStagedChanges)])
      && (HasEntries(repo.indexChanges) && repo.commit.Threw? ==>
            GitCalls(t) == setup + [commit] && Notices(t) == [Notify(Error, ScmFailedPrefix + repo.commit.error)])
      && (HasEntries(repo.indexChanges) && repo.commit.Done? ==> GitCalls(t) == setup + [commit, Git(Push)])
      && (HasEntries(repo.indexChanges) && repo.commit.Done? && repo.push.Done? ==>
            Notices(t) == [Notify(Information, CommittedAndPushed)])
      && (HasEntries(repo.indexChanges) && repo.commit.Done? && repo.push.Threw? ==>
            Notices(t) == [Notify(Warning, PushFailedPrefix + repo.push.error)])
  {
    ReadyActionTally(data, hasPanel, env);
    CommitAndPushSwitch(data.value.message, env.repositories[0]);
  }

  /**
   * `commitAll` stages everything with `add(['.'])` before any check, and
   * commits only when the repository's staged list is non-empty afterwards.
   */
  lemma CommitAllOutcome(data: Option<CommitData>, hasPanel: bool, env: GitEnv)
    requires ValidIntent(data) && Ready(env) && ParseAction(data.value.action) == CommitAll
    ensures var t := CommitAction(data, hasPanel, env);
      var repo := env.repositories[0];
      var setup := SetupCalls(env.extension.value);
      var staged := repo.add.Done? && HasEntries(repo.indexChangesAfterAdd);
      && GitCalls(t) == setup + [Git(Add(["."]))] + (if staged then [Git(Commit(data.value.message))] else [])
      && (repo.add.Done? && !HasEntries(repo.indexChangesAfterAdd) ==>
            Notices(t) == [Notify(Error, ScmFailedPrefix + NoChangesToCommit)])
      && (staged && repo.commit.Done? ==> Notices(t) == [Notify(Information, AllCommitted)])
  {
    ReadyActionTally(data, hasPanel, env);
    CommitAllSwitch(data.value.message, env.repositories[0]);
  }

  // ---------------------------------------------------------------------
  // Code review (extension.ts:178-192)
  // ---------------------------------------------------------------------

  const NoEditor := "No active editor found. Please open a file to review."
  const ReviewFailedPrefix := "Failed to fetch code review: "

  /** The request the command's local `fetchCodeReview` posts: the code as the only field. */
  function CodeReviewRequest(endpoint: string, code: string): (r: Request)
    ensures r.url == endpoint
    ensures Keys(r.body) == ["code"] && Lookup(r.body, "code") == Some(Text(code))
  {
    Request(endpoint, [("Content-Type", "application/json")], [("code", Text(code))])
  }

  /**
   * The get-code-review command, given the active editor's text (if any)
   * and how the review request settled (a rejection carries the bare
   * message).  It posts nothing to the panel.
   */
  function GetCodeReview(endpoint: string, editor: Option<string>, review: Result<string>): (t: seq<Effect>)
    ensures editor.None? ==> t == [Notify(Error, NoEditor)]
    ensures editor.Some? ==> |t| == 2 && t[0] == Send(CodeReviewRequest(endpoint, editor.value))
  {
    match editor
    case None => [Notify(Error, NoEditor)]
    case Some(code) =>
      var shown :=
        match review
        case Ok(text) => Notify(Information, text)
        case Err(e) => Notify(Error, ReviewFailedPrefix + e);
      [Send(CodeReviewRequest(endpoint, code)), shown]
  }

  /**
   * One notification on every path; a request exactly when an editor is
   * open; the review itself when it arrived, the rejection otherwise; no
   * panel message.
   */
  lemma GetCodeReviewEffects(endpoint: string, editor: Option<string>, review: Result<string>)
    ensures var t := GetCodeReview(endpoint, editor, review);
      && |Notices(t)| == 1
      && Posts(t) == []
      && Sends(t) == (if editor.Some? then [Send(CodeReviewRequest(endpoint, editor.value))] else [])
      && (editor.Some? && review.Ok? ==> Notices(t) == [Notify(Information, review.value)])
      && (editor.Some? && review.Err? ==> Notices(t) == [Notify(Error, ReviewFailedPrefix + review.error)])
  {
    var t := GetCodeReview(endpoint, editor, review);
    if editor.Some? {
      assert t == [t[0]] + [t[1]];
      EffectsAppend([t[0]], [t[1]]);
      EffectsSingle(t[0]);
      EffectsSingle(t[1]);
    } else {
      EffectsSingle(t[0]);
    }
  }

  // ---------------------------------------------------------------------
  // Panel message dispatch (extension.ts:353-366)
  // ---------------------------------------------------------------------

  /** A message from the panel: its `type` and the fields the dispatch reads (absent ones read as ""). */
  datatype Envelope = Envelope(kind: string, action: string, message: string, value: string)

  /** What the dispatch does with a message. */
  datatype Command =
    | RunGenerate
    | RunCommit(data: CommitData)
    | RunReview
    | ShowError(text: string)
    | Ignore

  const GenerateKind := "generateMessage"
  const CommitKind := "commitAction"
  const ReviewKind := "getCodeReview"
  const ShowErrorKind := "showErrorMessage"

  /** The four message types the dispatch knows. */
  predicate KnownKind(kind: string) {
    kind == GenerateKind || kind == CommitKind || kind == ReviewKind || kind == ShowErrorKind
  }

  /**
   * The `switch` on `message.type`.  Each known type starts its own command,
   * a commit request passes on exactly the action and message fields, and
   * any other type is dropped.
   */
  function Route(m: Envelope): (c: Command)
    ensures c.Ignore? <==> !KnownKind(m.kind)
    ensures c.RunGenerate? <==> m.kind == GenerateKind
    ensures c.RunReview? <==> m.kind == ReviewKind
    ensures c.RunCommit? <==> m.kind == CommitKind
    ensures c.RunCommit? ==> c.data == CommitData(m.action, m.message)
    ensures c.ShowError? <==> m.kind == ShowErrorKind
    ensures c.ShowError? ==> c.text == m.value
  {
    if m.kind == GenerateKind then RunGenerate
    else if m.kind == CommitKind then RunCommit(CommitData(m.action, m.message))
    else if m.kind == ReviewKind then RunReview
    else if m.kind == ShowErrorKind then ShowError(m.value)
    else Ignore
  }
}
