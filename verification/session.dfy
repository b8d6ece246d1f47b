/**
 * The panel and the extension together: a user event in the panel, the
 * command the extension runs for what the panel sent (extension.ts:353-366),
 * and the panel messages that command posts back, applied in order.  Each
 * command runs to completion before the next event; interleavings of
 * overlapping commands are not modelled.
 */
module Session {
  import opened Results
  import opened JsText
  import opened Effects
  import opened Services
  import opened Helpers
  import opened Extension
  import opened Webview

  /** Everything the extension's collaborators will answer during one command. */
  datatype HostEnv = HostEnv(
    settings: Settings,
    folders: seq<string>,
    staged: ExecResult,
    reply: Reply,
    git: GitEnv,
    reviewEndpoint: string,
    editor: Option<string>,
    review: Result<string>)

  /**
   * What the extension does for a routed panel message, with the panel
   * present.  `fixed` selects the generate-message command that also stops
   * loading on its early returns.
   */
  function Dispatch(cmd: Command, env: HostEnv, fixed: bool): seq<Effect> {
    match cmd
    case RunGenerate =>
      if fixed then GenerateMessageFixed(env.settings, env.folders, env.staged, env.reply)
      else GenerateMessage(env.settings, env.folders, env.staged, env.reply)
    case RunCommit(data) => CommitAction(Some(data), true, env.git)
    case RunReview => GetCodeReview(env.reviewEndpoint, env.editor, env.review)
    case ShowError(text) => [Notify(Error, text)]
    case Ignore => []
  }

  /** One user event, end to end: the panel afterwards, what it sent, and what the extension did. */
  datatype Round = Round(panel: Panel, sent: seq<Outbound>, host: seq<Effect>)

  function Cycle(p: Panel, ev: UserEvent, env: HostEnv, fixed: bool): (r: Round)
    ensures r.sent == OnEvent(p, ev).sent
    ensures r.panel == Apply(OnEvent(p, ev).panel, Posts(r.host))
  {
    var s := OnEvent(p, ev);
    var host := if |s.sent| > 0 && s.sent[0].ToHost? then Dispatch(Route(s.sent[0].envelope), env, fixed) else [];
    Round(Apply(s.panel, Posts(host)), s.sent, host)
  }

  /**
   * Between commands the generate button is enabled and the commit button
   * is enabled exactly when an action is selected.
   */
  predicate Idle(p: Panel) {
    !p.generateDisabled && p.commitDisabled == (p.dropdown == "")
  }

  /**
   * With the corrected generate command, every user event returns an idle
   * panel to idle once the extension has finished.
   */
  lemma CyclePreservesIdle(p: Panel, ev: UserEvent, env: HostEnv)
    requires Idle(p)
    ensures Idle(Cycle(p, ev, env, true).panel)
  {
    match ev
    case ClickGenerate => GenerateCycleIdle(p, env);
    case ClickCommit => CommitCycleIdle(p, env);
    case ClickReview =>
      GetCodeReviewEffects(env.reviewEndpoint, env.editor, env.review);
    case _ =>
  }

  lemma GenerateCycleIdle(p: Panel, env: HostEnv)
    requires Idle(p)
    ensures Idle(Cycle(p, ClickGenerate, env, true).panel)
  {
    var t := GenerateMessageFixed(env.settings, env.folders, env.staged, env.reply);
    GenerateHost(p, env);
    GenerateFixedPostsOnly(env.settings, env.folders, env.staged, env.reply);
    GeneratePostsIdle(p, Posts(t));
  }

  /** A generate click on an enabled button runs the corrected command. */
  lemma GenerateHost(p: Panel, env: HostEnv)
    requires !p.generateDisabled
    ensures Cycle(p, ClickGenerate, env, true).panel ==
      Apply(p, Posts(GenerateMessageFixed(env.settings, env.folders, env.staged, env.reply)))
  {
    assert OnEvent(p, ClickGenerate).sent == [ToHost(GenerateEnvelope())];
    assert Route(GenerateEnvelope()) == RunGenerate;
  }

  /** Posts bracketed by the generate loading messages, and touching nothing else, keep an idle panel idle. */
  lemma GeneratePostsIdle(p: Panel, posts: seq<PanelMsg>)
    requires Idle(p) && Bracketed(posts, StartLoading, StopLoading)
    requires forall i :: 0 <= i < |posts| ==> posts[i].StartLoading? || posts[i].StopLoading? || posts[i].UpdateInput?
    ensures Idle(Apply(p, posts))
  {
    BracketedGenerateEnds(p, posts);
    ApplyKeepsCommitButton(p, posts);
  }

  lemma CommitCycleIdle(p: Panel, env: HostEnv)
    requires Idle(p)
    ensures Idle(Cycle(p, ClickCommit, env, true).panel)
  {
    if !p.commitDisabled && p.dropdown != "" && !IsBlank(p.text) {
      var data := Some(CommitData(p.dropdown, Trim(p.text)));
      CommitHost(p, env);
      CommitActionEffects(data, true, env.git);
      CommitPostsIdle(p);
    } else {
      CommitIgnored(p, env);
    }
  }

  /** A commit click that passes the panel's guard runs the commit action with the trimmed text. */
  lemma CommitHost(p: Panel, env: HostEnv)
    requires !p.commitDisabled && p.dropdown != "" && !IsBlank(p.text)
    ensures Cycle(p, ClickCommit, env, true).panel ==
      Apply(p, Posts(CommitAction(Some(CommitData(p.dropdown, Trim(p.text))), true, env.git)))
  {
    assert OnEvent(p, ClickCommit).sent == [ToHost(CommitEnvelope(p.dropdown, Trim(p.text)))];
    assert Route(CommitEnvelope(p.dropdown, Trim(p.text))) == RunCommit(CommitData(p.dropdown, Trim(p.text)));
  }

  /** A commit click that does not pass the guard leaves the panel as it was. */
  lemma CommitIgnored(p: Panel, env: HostEnv)
    requires !(!p.commitDisabled && p.dropdown != "" && !IsBlank(p.text))
    ensures Cycle(p, ClickCommit, env, true).panel == p
  {
    var s := OnEvent(p, ClickCommit);
    assert s.sent == [] || s.sent == [Alert(EmptyMessageAlert)];
  }

  /** The commit loading messages, alone, keep an idle panel idle. */
  lemma CommitPostsIdle(p: Panel)
    requires Idle(p)
    ensures Idle(Apply(p, [StartCommitLoading, StopCommitLoading]))
  {
    var posts := [StartCommitLoading, StopCommitLoading];
    BracketedCommitEnds(p, posts);
    ApplyKeepsGenerateButton(p, posts);
  }

  /** A sequence of user events, each completed before the next. */
  function Run(p: Panel, events: seq<UserEvent>, env: HostEnv, fixed: bool): (q: Panel)
    decreases |events|
  {
    if |events| == 0 then p else Run(Cycle(p, events[0], env, fixed).panel, events[1..], env, fixed)
  }

  /** From the page's first state, any sequence of events leaves the panel idle. */
  lemma {:induction false} RunStaysIdle(p: Panel, events: seq<UserEvent>, env: HostEnv)
    requires Idle(p)
    ensures Idle(Run(p, events, env, true))
    decreases |events|
  {
    if |events| > 0 {
      CyclePreservesIdle(p, events[0], env);
      RunStaysIdle(Cycle(p, events[0], env, true).panel, events[1..], env);
    }
  }

  /** The first state of the page is idle, so every reachable one is. */
  lemma InitialStaysIdle(events: seq<UserEvent>, env: HostEnv)
    ensures Idle(Run(Initial, events, env, true))
  {
    RunStaysIdle(Initial, events, env);
  }

  /**
   * With the generate command as written, clicking generate with no
   * workspace folder open leaves the generate button disabled, and from
   * then on clicking it sends nothing.
   */
  lemma AsWrittenGenerateSticks(p: Panel, env: HostEnv)
    requires Idle(p) && env.folders == []
    ensures var q := Cycle(p, ClickGenerate, env, false).panel;
      q.generateDisabled && OnEvent(q, ClickGenerate).sent == []
  {
    var t := GenerateMessage(env.settings, env.folders, env.staged, env.reply);
    assert Cycle(p, ClickGenerate, env, false).host == t;
    GenerateLeavesLoading(env.settings, env.folders, env.staged, env.reply);
    assert Posts(t) == [StartLoading];
    assert Apply(p, [StartLoading]) == Apply(p.(generateDisabled := true), []);
  }
}
