/**
 * The vocabulary of observable effects.  Every handler of the extension is
 * modelled as a pure function from the outcomes of its collaborators to the
 * ordered trace of what it did: processes it ran, Git extension calls it
 * made, messages it posted to the panel, notifications it showed and HTTP
 * requests it sent.
 */
module Effects {
  import opened Results

  /** Which `vscode.window.show…Message` was used. */
  datatype Severity = Error | Warning | Information

  /** Messages the extension posts to the panel script. */
  datatype PanelMsg =
    | StartLoading
    | StopLoading
    | StartCommitLoading
    | StopCommitLoading
    | UpdateInput(value: string)

  /** Calls on the Git extension and its first repository. */
  datatype GitCall =
    | Activate
    | Status
    | Commit(message: string)
    | Push
    | Add(paths: seq<string>)

  /** A JSON value of a request body field. */
  datatype Field = Text(text: string) | Number(number: int)

  /** One outbound POST: its URL, headers and JSON body, both in written order. */
  datatype Request = Request(url: string, headers: seq<(string, string)>, body: seq<(string, Field)>)

  datatype Effect =
    | Exec(command: string, cwd: Option<string>)
    | Git(call: GitCall)
    | Post(msg: PanelMsg)
    | Notify(severity: Severity, text: string)
    | Send(request: Request)

  /** The value stored under `key` in a list of pairs (the first one, as an object literal has one). */
  function Lookup<V>(pairs: seq<(string, V)>, key: string): Option<V>
  {
    if |pairs| == 0 then None
    else if pairs[0].0 == key then Some(pairs[0].1)
    else Lookup(pairs[1..], key)
  }

  /** The first pair whose key is `key` supplies the value. */
  lemma {:induction false} LookupFirst<V>(pairs: seq<(string, V)>, i: nat, key: string)
    requires i < |pairs| && pairs[i].0 == key
    requires forall j :: 0 <= j < i ==> pairs[j].0 != key
    ensures Lookup(pairs, key) == Some(pairs[i].1)
  {
    if i > 0 {
      LookupFirst(pairs[1..], i - 1, key);
    }
  }

  /** The keys of a list of pairs, in order. */
  function Keys<V>(pairs: seq<(string, V)>): (ks: seq<string>)
    ensures |ks| == |pairs|
    ensures forall i :: 0 <= i < |pairs| ==> ks[i] == pairs[i].0
  {
    seq(|pairs|, i requires 0 <= i < |pairs| => pairs[i].0)
  }

  predicate IsNotice(e: Effect) { e.Notify? }

  predicate IsGitCall(e: Effect) { e.Git? }

  predicate IsSend(e: Effect) { e.Send? }

  /** The effects of `trace` that satisfy `keep`, in order. */
  function Only(trace: seq<Effect>, keep: Effect -> bool): (r: seq<Effect>)
    ensures |r| <= |trace|
  {
    if |trace| == 0 then []
    else if keep(trace[0]) then [trace[0]] + Only(trace[1..], keep)
    else Only(trace[1..], keep)
  }

  /** The filter keeps exactly the effects of `trace` that satisfy `keep`. */
  lemma {:induction false} OnlyMembers(trace: seq<Effect>, keep: Effect -> bool)
    ensures forall e :: e in Only(trace, keep) <==> e in trace && keep(e)
  {
    if |trace| > 0 {
      OnlyMembers(trace[1..], keep);
      assert forall e :: e in trace <==> e == trace[0] || e in trace[1..];
    }
  }

  /** Filtering distributes over concatenation, so per-step filters add up. */
  lemma {:induction false} OnlyAppend(a: seq<Effect>, b: seq<Effect>, keep: Effect -> bool)
    ensures Only(a + b, keep) == Only(a, keep) + Only(b, keep)
  {
    if |a| > 0 {
      assert (a + b)[1..] == a[1..] + b;
      OnlyAppend(a[1..], b, keep);
    } else {
      assert a + b == b;
    }
  }

  /** Nothing of `trace` is kept. */
  lemma OnlyNone(trace: seq<Effect>, keep: Effect -> bool)
    requires forall i :: 0 <= i < |trace| ==> !keep(trace[i])
    ensures Only(trace, keep) == []
  {
    OnlyMembers(trace, keep);
  }

  /** The notifications shown, in order. */
  function Notices(trace: seq<Effect>): seq<Effect> {
    Only(trace, IsNotice)
  }

  /** The Git extension calls made, in order. */
  function GitCalls(trace: seq<Effect>): seq<Effect> {
    Only(trace, IsGitCall)
  }

  /** The requests sent, in order. */
  function Sends(trace: seq<Effect>): seq<Effect> {
    Only(trace, IsSend)
  }

  /** The messages posted to the panel, in order. */
  function Posts(trace: seq<Effect>): (r: seq<PanelMsg>)
    ensures |r| <= |trace|
  {
    if |trace| == 0 then []
    else if trace[0].Post? then [trace[0].msg] + Posts(trace[1..])
    else Posts(trace[1..])
  }

  /** A message is among the posts exactly when the trace posts it. */
  lemma {:induction false} PostsMembers(trace: seq<Effect>)
    ensures forall m :: m in Posts(trace) <==> Post(m) in trace
  {
    if |trace| > 0 {
      PostsMembers(trace[1..]);
      assert forall e :: e in trace <==> e == trace[0] || e in trace[1..];
    }
  }

  /** The posts of consecutive traces are concatenated in the same order. */
  lemma {:induction false} PostsAppend(a: seq<Effect>, b: seq<Effect>)
    ensures Posts(a + b) == Posts(a) + Posts(b)
  {
    if |a| > 0 {
      assert (a + b)[1..] == a[1..] + b;
      PostsAppend(a[1..], b);
    } else {
      assert a + b == b;
    }
  }

  /** A trace that posts nothing. */
  lemma PostsNone(trace: seq<Effect>)
    requires forall i :: 0 <= i < |trace| ==> !trace[i].Post?
    ensures Posts(trace) == []
  {
    PostsMembers(trace);
  }

  /** The posted messages, requests and notifications of consecutive traces add up. */
  lemma EffectsAppend(a: seq<Effect>, b: seq<Effect>)
    ensures Posts(a + b) == Posts(a) + Posts(b)
    ensures Sends(a + b) == Sends(a) + Sends(b)
    ensures Notices(a + b) == Notices(a) + Notices(b)
    ensures GitCalls(a + b) == GitCalls(a) + GitCalls(b)
  {
    PostsAppend(a, b);
    OnlyAppend(a, b, IsSend);
    OnlyAppend(a, b, IsNotice);
    OnlyAppend(a, b, IsGitCall);
  }

  /** What a single effect contributes. */
  lemma EffectsSingle(e: Effect)
    ensures Posts([e]) == (if e.Post? then [e.msg] else [])
    ensures Sends([e]) == (if e.Send? then [e] else [])
    ensures Notices([e]) == (if e.Notify? then [e] else [])
    ensures GitCalls([e]) == (if e.Git? then [e] else [])
  {
  }

  /** Some effect of the trace commits. */
  predicate Commits(trace: seq<Effect>) {
    exists e :: e in trace && e.Git? && e.call.Commit?
  }

  /**
   * The panel messages `posts` enter a loading state with `open` first and
   * leave it with `close` last, and neither occurs in between.
   */
  predicate Bracketed(posts: seq<PanelMsg>, open: PanelMsg, close: PanelMsg) {
    && |posts| >= 2
    && posts[0] == open
    && posts[|posts| - 1] == close
    && forall i :: 0 < i < |posts| - 1 ==> posts[i] != open && posts[i] != close
  }
}
