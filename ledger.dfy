/** The per-session credit ledger: the three `st.session_state` keys, their
    lazy initialisation, the gating of the Generate button and the handler
    that spends one credit per successful generation. */
module Ledger {
  import opened Wrappers
  import opened Validation
  import opened Generation

  /** Free credits a new session starts with. */
  const FreeCredits: int := 2

  /** Characters of the output kept in a history record. */
  const PreviewLength: nat := 500

  const Ellipsis: string := "..."

  /** History topic recorded for an image request. */
  const ImageTopic: string := "Image Upload"

  /** Warning shown when image mode is chosen and no file is uploaded. */
  const ImageWarning: string := "Please upload an image first"

  /** The two choices of the input radio. */
  datatype InputMethod = TypeTopic | UploadScreenshot

  /** One entry of `query_history`; `output` holds the preview. */
  datatype QueryRecord = QueryRecord(topic: string, timestamp: string, output: string)

  /** `output[:500] + "..."`: the first 500 characters, then an ellipsis,
      which is appended whatever the length of the output. */
  function Preview(output: string): (p: string)
    ensures |p| == Min(|output|, PreviewLength) + |Ellipsis|
    ensures p[|p| - |Ellipsis|..] == Ellipsis
    ensures p[..|p| - |Ellipsis|] <= output
  {
    var p := Head(output, PreviewLength) + Ellipsis;
    assert p[..|p| - |Ellipsis|] == Head(output, PreviewLength);
    p
  }

  /** An output of at most 500 characters is kept whole, then marked. */
  lemma PreviewOfShortOutput(output: string)
    requires |output| <= PreviewLength
    ensures Preview(output) == output + Ellipsis
  {
    var p := Preview(output);
    assert p == p[..|p| - |Ellipsis|] + p[|p| - |Ellipsis|..];
  }

  /** A longer output is cut after its first 500 characters. */
  lemma PreviewOfLongOutput(output: string)
    requires |output| > PreviewLength
    ensures Preview(output) == output[..PreviewLength] + Ellipsis
  {
    var p := Preview(output);
    assert p == p[..|p| - |Ellipsis|] + p[|p| - |Ellipsis|..];
  }

  /** Outputs that agree on their first 500 characters store the same preview. */
  lemma PreviewSeesOnlyHead(a: string, b: string)
    requires |a| >= PreviewLength && |b| >= PreviewLength
    requires a[..PreviewLength] == b[..PreviewLength]
    ensures Preview(a) == Preview(b)
  {
    var p, q := Preview(a), Preview(b);
    assert p == p[..|p| - |Ellipsis|] + p[|p| - |Ellipsis|..];
    assert q == q[..|q| - |Ellipsis|] + q[|q| - |Ellipsis|..];
  }

  /** What pressing Generate led to: a validation warning before any call,
      or a call of `generate_questions` whose success would be recorded
      under `topic`. */
  datatype Attempt =
    | Rejected(warning: string)
    | Called(topic: string, gen: Generation)

  /** The branch structure of the handler, given the input method, the text
      area, the uploaded file's bytes (`None` when nothing was uploaded),
      the two credential sources and the service's reply. */
  function AttemptGeneration(inputMethod: InputMethod, topicText: Option<string>,
                             upload: Option<seq<byte>>, secret: Option<string>,
                             env: Option<string>, reply: Option<string>): (a: Attempt)
    ensures a.Rejected? <==>
      (inputMethod == TypeTopic && !ValidTopic(topicText)) || (inputMethod == UploadScreenshot && upload.None?)
    ensures a.Rejected? ==> a.warning == (if inputMethod == TypeTopic then TopicWarning else ImageWarning)
    ensures a.Called? && inputMethod == TypeTopic ==>
      a.topic == topicText.value && a.gen == GenerateQuestions(topicText, None, secret, env, reply)
    ensures a.Called? && inputMethod == UploadScreenshot ==>
      a.topic == ImageTopic && a.gen == GenerateQuestions(None, upload, secret, env, reply)
  {
    match inputMethod
    case TypeTopic =>
      if !ValidTopic(topicText) then Rejected(TopicWarning)
      else Called(topicText.value, GenerateQuestions(topicText, None, secret, env, reply))
    case UploadScreenshot =>
      if upload.None? then Rejected(ImageWarning)
      else Called(ImageTopic, GenerateQuestions(None, upload, secret, env, reply))
  }

  /** The output that pays for a credit: present only when the handler's
      `if output:` test passes, that is, the call returned non-empty text. */
  function SpentOutput(a: Attempt): (o: Option<string>)
    ensures o.Some? ==> a.Called? && Output(a.gen) == o && o.value != []
    ensures a.Called? && Truthy(Output(a.gen)) ==> o.Some?
  {
    if a.Called? && Truthy(Output(a.gen)) then Output(a.gen) else None
  }

  /** A rejected topic or a missing upload sends nothing and spends nothing. */
  lemma RejectionSpendsNothing(inputMethod: InputMethod, topicText: Option<string>,
                               upload: Option<seq<byte>>, secret: Option<string>,
                               env: Option<string>, reply: Option<string>)
    requires (inputMethod == TypeTopic && !ValidTopic(topicText)) || (inputMethod == UploadScreenshot && upload.None?)
    ensures SpentOutput(AttemptGeneration(inputMethod, topicText, upload, secret, env, reply)).None?
  {
  }

  /** A missing key, a failed call and an empty reply all spend nothing. */
  lemma FailureSpendsNothing(inputMethod: InputMethod, topicText: Option<string>,
                             upload: Option<seq<byte>>, secret: Option<string>,
                             env: Option<string>, reply: Option<string>)
    requires (!Truthy(secret) && !Truthy(env)) || !Truthy(reply)
    ensures SpentOutput(AttemptGeneration(inputMethod, topicText, upload, secret, env, reply)).None?
  {
  }

  /** A valid attempt with a key and a non-empty reply spends exactly that reply. */
  lemma SuccessSpendsReply(inputMethod: InputMethod, topicText: Option<string>,
                           upload: Option<seq<byte>>, secret: Option<string>,
                           env: Option<string>, reply: Option<string>)
    requires (inputMethod == TypeTopic && ValidTopic(topicText)) || (inputMethod == UploadScreenshot && upload.Some?)
    requires Truthy(secret) || Truthy(env)
    requires Truthy(reply)
    ensures SpentOutput(AttemptGeneration(inputMethod, topicText, upload, secret, env, reply)) == reply
  {
  }

  /** An uploaded but empty file passes the presence check and is sent as a
      text request with no topic; a non-empty reply is then recorded and paid
      for under the image topic. */
  lemma EmptyUploadSendsTextRequest(secret: Option<string>, env: Option<string>, reply: Option<string>)
    requires Truthy(secret) || Truthy(env)
    ensures var a := AttemptGeneration(UploadScreenshot, None, Some([]), secret, env, reply);
      a.Called? && a.topic == ImageTopic && a.gen.Sent? && a.gen.request == TextRequest(None)
  {
  }

  /** The session's keys in `st.session_state`, and the Generate button as
      the page the user sees shows it. */
  class Session {
    var credits: Option<int>
    var queryHistory: Option<seq<QueryRecord>>
    var totalQueries: Option<int>

    /** Whether the Generate button on the page in the browser is enabled:
        the value the gate computed in the previous run, before that run's
        handler spent anything. False before the first page is shown. The
        browser delivers a click only on an enabled button. */
    var buttonEnabled: bool

    /** A new browser session: no key is set and no page is shown yet. */
    constructor ()
      ensures NoKeys() && !buttonEnabled
    {
      credits, queryHistory, totalQueries := None, None, None;
      buttonEnabled := false;
    }

    predicate NoKeys()
      reads this
    {
      credits.None? && queryHistory.None? && totalQueries.None?
    }

    /** A session whose script has not run yet. */
    predicate Fresh()
      reads this
    {
      NoKeys() && !buttonEnabled
    }

    /** The bookkeeping every run keeps: every key is set, each query has
        one record, and each credit spent is paired with one query. */
    ghost predicate Ledger()
      reads this
    {
      && credits.Some? && queryHistory.Some? && totalQueries.Some?
      && totalQueries.value == |queryHistory.value|
      && credits.value + totalQueries.value == FreeCredits
    }

    /** What the script as written keeps: credits may fall to -1 but no lower,
        and a page showing an enabled button was rendered with credits left. */
    ghost predicate Valid()
      reads this
    {
      && Ledger()
      && credits.value >= -1
      && (buttonEnabled ==> credits.value >= 0)
    }

    /** What the credit system is meant to keep: credits never go negative. */
    ghost predicate Solvent()
      reads this
    {
      Ledger() && credits.value >= 0
    }

    /** Sets each key to its default only when it is absent. */
    method Initialize()
      modifies this
      ensures credits == Some(old(credits).GetOr(FreeCredits))
      ensures queryHistory == Some(old(queryHistory).GetOr([]))
      ensures totalQueries == Some(old(totalQueries).GetOr(0))
      ensures buttonEnabled == old(buttonEnabled)
      ensures old(NoKeys()) || old(Ledger()) ==> Ledger()
    {
      if credits.None? {
        credits := Some(FreeCredits);
      }
      if queryHistory.None? {
        queryHistory := Some([]);
      }
      if totalQueries.None? {
        totalQueries := Some(0);
      }
    }

    /** The Generate button is rendered enabled unless credits are below one. */
    function GenerateEnabled(): (enabled: bool)
      reads this
      requires credits.Some?
      ensures enabled <==> credits.value >= 1
      ensures Ledger() ==> (enabled <==> totalQueries.value < FreeCredits)
    {
      !(credits.value < 1)
    }

    /** The handler run when Generate reports a click. It does not look at
        the credits. On a non-empty output it takes one credit, counts one
        query and appends one record; otherwise it leaves the session as it
        was. */
    method HandleGenerate(inputMethod: InputMethod, topicText: Option<string>,
                          upload: Option<seq<byte>>, secret: Option<string>,
                          env: Option<string>, reply: Option<string>,
                          timestamp: string) returns (a: Attempt)
      requires Ledger()
      modifies this
      ensures Ledger()
      ensures a == AttemptGeneration(inputMethod, topicText, upload, secret, env, reply)
      ensures SpentOutput(a).Some? ==>
        && credits == Some(old(credits).value - 1)
        && totalQueries == Some(old(totalQueries).value + 1)
        && queryHistory == Some(old(queryHistory).value
                                + [QueryRecord(a.topic, timestamp, Preview(SpentOutput(a).value))])
        && buttonEnabled == old(buttonEnabled)
      ensures SpentOutput(a).None? ==> unchanged(this)
    {
      a := AttemptGeneration(inputMethod, topicText, upload, secret, env, reply);
      var output := SpentOutput(a);
      if output.Some? {
        var record := QueryRecord(a.topic, timestamp, Preview(output.value));
        credits := Some(credits.value - 1);
        totalQueries := Some(totalQueries.value + 1);
        queryHistory := Some(queryHistory.value + [record]);
      }
    }

    /** One run of the script as written. `clicked` is the user's click on
        the page shown before this run; it reaches the script only if that
        page showed the button enabled. The script initialises the keys,
        renders the button from this run's credits (the new page), and runs
        the handler on the delivered click without checking credits again.
        The result is `None` when the handler did not run. */
    method Rerun(clicked: bool, inputMethod: InputMethod, topicText: Option<string>,
                 upload: Option<seq<byte>>, secret: Option<string>,
                 env: Option<string>, reply: Option<string>,
                 timestamp: string) returns (a: Option<Attempt>)
      requires Fresh() || Valid()
      modifies this
      ensures Valid()
      ensures buttonEnabled <==> old(credits).GetOr(FreeCredits) >= 1
      ensures a.Some? <==> clicked && old(buttonEnabled)
      ensures a.Some? ==> a.value == AttemptGeneration(inputMethod, topicText, upload, secret, env, reply)
      ensures a.Some? && SpentOutput(a.value).Some? ==>
        && credits == Some(old(credits).GetOr(FreeCredits) - 1)
        && totalQueries == Some(old(totalQueries).GetOr(0) + 1)
        && queryHistory == Some(old(queryHistory).GetOr([])
             + [QueryRecord(a.value.topic, timestamp, Preview(SpentOutput(a.value).value))])
      ensures a.None? || SpentOutput(a.value).None? ==>
        && credits == Some(old(credits).GetOr(FreeCredits))
        && totalQueries == Some(old(totalQueries).GetOr(0))
        && queryHistory == Some(old(queryHistory).GetOr([]))
    {
      var delivered := clicked && buttonEnabled;
      Initialize();
      ghost var before := credits.value;
      assert delivered ==> before >= 0;
      buttonEnabled := GenerateEnabled();
      if delivered {
        var attempt := HandleGenerate(inputMethod, topicText, upload, secret, env, reply, timestamp);
        a := Some(attempt);
      } else {
        a := None;
      }
    }

    /** One run with the credit check the gate is meant to provide: a
        delivered click runs the handler only while credits are at least one.
        Credits then never go negative. */
    method RerunChecked(clicked: bool, inputMethod: InputMethod, topicText: Option<string>,
                        upload: Option<seq<byte>>, secret: Option<string>,
                        env: Option<string>, reply: Option<string>,
                        timestamp: string) returns (a: Option<Attempt>)
      requires Fresh() || Solvent()
      modifies this
      ensures Solvent()
      ensures buttonEnabled <==> old(credits).GetOr(FreeCredits) >= 1
      ensures a.Some? <==> clicked && old(buttonEnabled) && old(credits).GetOr(FreeCredits) >= 1
      ensures a.Some? ==> a.value == AttemptGeneration(inputMethod, topicText, upload, secret, env, reply)
      ensures a.Some? && SpentOutput(a.value).Some? ==>
        && credits == Some(old(credits).GetOr(FreeCredits) - 1)
        && totalQueries == Some(old(totalQueries).GetOr(0) + 1)
        && queryHistory == Some(old(queryHistory).GetOr([])
             + [QueryRecord(a.value.topic, timestamp, Preview(SpentOutput(a.value).value))])
      ensures a.None? || SpentOutput(a.value).None? ==>
        && credits == Some(old(credits).GetOr(FreeCredits))
        && totalQueries == Some(old(totalQueries).GetOr(0))
        && queryHistory == Some(old(queryHistory).GetOr([]))
    {
      var delivered := clicked && buttonEnabled;
      Initialize();
      ghost var before := credits.value;
      assert delivered ==> before >= 0;
      buttonEnabled := GenerateEnabled();
      if delivered && buttonEnabled {
        var attempt := HandleGenerate(inputMethod, topicText, upload, secret, env, reply, timestamp);
        a := Some(attempt);
      } else {
        a := None;
      }
    }
  }

  /** With the credit check, a session holds at most the free credits, never
      fewer than none, and has answered at most that many queries. */
  lemma SessionBounds(s: Session)
    requires s.Solvent()
    ensures 0 <= s.credits.value <= FreeCredits
    ensures 0 <= s.totalQueries.value <= FreeCredits
  {
  }

  /** The script as written never takes credits below -1: after the stale
      click, the page shows the button disabled. */
  lemma OverdrawBound(s: Session)
    requires s.Valid()
    ensures -1 <= s.credits.value <= FreeCredits + 1 - s.totalQueries.value
    ensures s.totalQueries.value <= FreeCredits + 1
    ensures s.buttonEnabled ==> s.totalQueries.value <= FreeCredits
  {
  }

  /** The script as written, on a session with a key and a service that
      always answers: the first run shows the page, two clicks spend both
      free credits, and a click on the button still shown enabled after the
      second spend is handled too, leaving -1 credits. */
  method OverdrawAsWritten() returns (credits: int)
    ensures credits == -1
  {
    var s := new Session();
    var topic := Some("Monsoon");
    assert ValidTopic(topic);
    var key, answer := Some("key"), Some("Q1. ...");
    var a0 := s.Rerun(false, TypeTopic, topic, None, key, None, answer, "t0");
    var a1 := s.Rerun(true, TypeTopic, topic, None, key, None, answer, "t1");
    var a2 := s.Rerun(true, TypeTopic, topic, None, key, None, answer, "t2");
    assert s.buttonEnabled;
    var a3 := s.Rerun(true, TypeTopic, topic, None, key, None, answer, "t3");
    credits := s.credits.value;
  }

  /** The same four runs with the credit check: the third click is refused
      and the session stays at 0 credits. */
  method OverdrawPrevented() returns (credits: int)
    ensures credits == 0
  {
    var s := new Session();
    var topic := Some("Monsoon");
    assert ValidTopic(topic);
    var key, answer := Some("key"), Some("Q1. ...");
    var a0 := s.RerunChecked(false, TypeTopic, topic, None, key, None, answer, "t0");
    var a1 := s.RerunChecked(true, TypeTopic, topic, None, key, None, answer, "t1");
    var a2 := s.RerunChecked(true, TypeTopic, topic, None, key, None, answer, "t2");
    var a3 := s.RerunChecked(true, TypeTopic, topic, None, key, None, answer, "t3");
    assert a3 == None;
    credits := s.credits.value;
  }
}
