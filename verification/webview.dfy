/**
 * The panel script (media/index.js): the state of its controls, how user
 * events change it and what they send to the extension, and how messages
 * from the extension change it.  Only the enabled flags, the dropdown value
 * and the text area are kept; classes and button captions are not.
 */
module Webview {
  import opened Results
  import opened JsText
  import opened Effects
  import opened Extension

  /** The controls the script reads and writes. */
  datatype Panel = Panel(
    generateDisabled: bool,
    commitDisabled: bool,
    dropdown: string,     // the selected action; "" is the "Select SCM Action" placeholder
    text: string,         // the message text area
    editable: bool)       // neither `disabled` nor `readOnly`

  /** The page as first shown: nothing selected, so the commit button starts disabled. */
  const Initial := Panel(false, true, "", "", true)

  /** What the user does. */
  datatype UserEvent =
    | ClickGenerate
    | ChangeDropdown(selected: string)
    | Edit(text: string)
    | ClickCommit
    | ClickReview

  /** What the script sends out: a message to the extension, or a browser alert. */
  datatype Outbound = ToHost(envelope: Envelope) | Alert(text: string)

  /** The result of a user event: the new panel and what was sent. */
  datatype Step = Step(panel: Panel, sent: seq<Outbound>)

  const EmptyMessageAlert := "Please enter a commit message."

  function GenerateEnvelope(): Envelope { Envelope(GenerateKind, "", "", "") }

  function ReviewEnvelope(): Envelope { Envelope(ReviewKind, "", "", "") }

  function CommitEnvelope(action: string, message: string): Envelope {
    Envelope(CommitKind, action, message, "")
  }

  /** The commit button's click handler, on the current dropdown value and text. */
  function CommitClick(p: Panel): (sent: seq<Outbound>)
    ensures sent == [ToHost(CommitEnvelope(p.dropdown, Trim(p.text)))] <==> p.dropdown != "" && !IsBlank(p.text)
    ensures sent == [Alert(EmptyMessageAlert)] <==> IsBlank(p.text)
    ensures sent == [] <==> p.dropdown == "" && !IsBlank(p.text)
  {
    var message := Trim(p.text);
    if p.dropdown != "" && message != "" then [ToHost(CommitEnvelope(p.dropdown, message))]
    else if message == "" then [Alert(EmptyMessageAlert)]
    else []
  }

  /**
   * A user event.  A click on a disabled button does nothing (the browser
   * does not deliver it); choosing an action enables the commit button
   * exactly when the choice is not the placeholder; editing changes only
   * the text; clicking generate or review sends one message of that type.
   */
  function OnEvent(p: Panel, ev: UserEvent): (s: Step)
    ensures ev.ChangeDropdown? ==> s.sent == [] && s.panel == p.(commitDisabled := ev.selected == "", dropdown := ev.selected)
    ensures ev.Edit? ==> s == Step(p.(text := ev.text), [])
    ensures ev.ClickGenerate? ==>
      s.panel == p && s.sent == (if p.generateDisabled then [] else [ToHost(GenerateEnvelope())])
    ensures ev.ClickReview? ==> s == Step(p, [ToHost(ReviewEnvelope())])
    ensures ev.ClickCommit? ==> s.panel == p && s.sent == (if p.commitDisabled then [] else CommitClick(p))
  {
    match ev
    case ClickGenerate => Step(p, if p.generateDisabled then [] else [ToHost(GenerateEnvelope())])
    case ChangeDropdown(v) => Step(p.(commitDisabled := v == "", dropdown := v), [])
    case Edit(t) => Step(p.(text := t), [])
    case ClickCommit => Step(p, if p.commitDisabled then [] else CommitClick(p))
    case ClickReview => Step(p, [ToHost(ReviewEnvelope())])
  }

  /**
   * Whatever the panel sends the extension is routed to the command it
   * names, and a commit request always passes the extension's own check
   * for an action and a message: the panel's guard is at least as strict.
   */
  lemma SentMessagesRoute(p: Panel, ev: UserEvent)
    ensures forall o :: o in OnEvent(p, ev).sent && o.ToHost? ==>
      match ev
      case ClickGenerate => Route(o.envelope) == RunGenerate
      case ClickReview => Route(o.envelope) == RunReview
      case ClickCommit =>
        && Route(o.envelope) == RunCommit(CommitData(p.dropdown, Trim(p.text)))
        && ValidIntent(Some(CommitData(p.dropdown, Trim(p.text))))
      case _ => false
  {
  }

  /** A message arriving from the extension. */
  datatype Incoming = FromHost(msg: PanelMsg) | Unrecognised(kind: string)

  /**
   * The `message` listener.  `updateInput` replaces the text and makes it
   * editable; the loading messages toggle their button, and the end of a
   * commit re-enables the commit button only if an action is selected;
   * any other message type changes nothing.
   */
  function Receive(p: Panel, m: Incoming): (q: Panel)
    ensures m.Unrecognised? ==> q == p
    ensures q.dropdown == p.dropdown
    ensures m == FromHost(StartLoading) ==> q == p.(generateDisabled := true)
    ensures m == FromHost(StopLoading) ==> q == p.(generateDisabled := false)
    ensures m == FromHost(StartCommitLoading) ==> q == p.(commitDisabled := true)
    ensures m == FromHost(StopCommitLoading) ==> q == p.(commitDisabled := p.dropdown == "")
    ensures m.FromHost? && m.msg.UpdateInput? ==> q == p.(text := m.msg.value, editable := true)
  {
    match m
    case Unrecognised(_) => p
    case FromHost(StartLoading) => p.(generateDisabled := true)
    case FromHost(StopLoading) => p.(generateDisabled := false)
    case FromHost(StartCommitLoading) => p.(commitDisabled := true)
    case FromHost(StopCommitLoading) => p.(commitDisabled := p.dropdown == "")
    case FromHost(UpdateInput(v)) => p.(text := v, editable := true)
  }

  /** The panel after receiving `posts` in order. */
  function Apply(p: Panel, posts: seq<PanelMsg>): (q: Panel)
    ensures q.dropdown == p.dropdown
    decreases |posts|
  {
    if |posts| == 0 then p else Apply(Receive(p, FromHost(posts[0])), posts[1..])
  }

  /** Receiving two batches is receiving their concatenation. */
  lemma {:induction false} ApplyAppend(p: Panel, a: seq<PanelMsg>, b: seq<PanelMsg>)
    ensures Apply(p, a + b) == Apply(Apply(p, a), b)
    decreases |a|
  {
    if |a| > 0 {
      assert (a + b)[1..] == a[1..] + b;
      ApplyAppend(Receive(p, FromHost(a[0])), a[1..], b);
    } else {
      assert a + b == b;
    }
  }

  /** Posts that never touch the commit button leave it as it was. */
  lemma {:induction false} ApplyKeepsCommitButton(p: Panel, posts: seq<PanelMsg>)
    requires forall i :: 0 <= i < |posts| ==> posts[i] != StartCommitLoading && posts[i] != StopCommitLoading
    ensures Apply(p, posts).commitDisabled == p.commitDisabled
    decreases |posts|
  {
    if |posts| > 0 {
      ApplyKeepsCommitButton(Receive(p, FromHost(posts[0])), posts[1..]);
    }
  }

  /** Posts that never touch the generate button leave it as it was. */
  lemma {:induction false} ApplyKeepsGenerateButton(p: Panel, posts: seq<PanelMsg>)
    requires forall i :: 0 <= i < |posts| ==> posts[i] != StartLoading && posts[i] != StopLoading
    ensures Apply(p, posts).generateDisabled == p.generateDisabled
    decreases |posts|
  {
    if |posts| > 0 {
      ApplyKeepsGenerateButton(Receive(p, FromHost(posts[0])), posts[1..]);
    }
  }

  /**
   * A batch bracketed by `startLoading` and `stopLoading` leaves the
   * generate button enabled, whatever came in between.
   */
  lemma BracketedGenerateEnds(p: Panel, posts: seq<PanelMsg>)
    requires Bracketed(posts, StartLoading, StopLoading)
    ensures !Apply(p, posts).generateDisabled
  {
    var k := |posts| - 1;
    assert posts == posts[..k] + [StopLoading];
    ApplyAppend(p, posts[..k], [StopLoading]);
  }

  /**
   * A batch bracketed by `startCommitLoading` and `stopCommitLoading`
   * leaves the commit button enabled exactly when an action is selected.
   */
  lemma BracketedCommitEnds(p: Panel, posts: seq<PanelMsg>)
    requires Bracketed(posts, StartCommitLoading, StopCommitLoading)
    ensures Apply(p, posts).commitDisabled == (p.dropdown == "")
  {
    var k := |posts| - 1;
    assert posts == posts[..k] + [StopCommitLoading];
    ApplyAppend(p, posts[..k], [StopCommitLoading]);
  }
}
