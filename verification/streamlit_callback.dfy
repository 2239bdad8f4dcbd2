/**
 * The streaming token relay of the chat page: a LangChain callback handler
 * that accumulates the answer's tokens in `text` and re-renders the whole text
 * in its container after each one, while dropping the tokens of the run that
 * rephrases the question. The container is replaced by a render log: the
 * sequence of texts passed to `markdown`, in order.
 */
module StreamlitCallback {
  import opened Json
  import opened Selection
  import opened Session

  /** A LangChain run id (a UUID); only its equality matters. */
  type RunId = string

  /** The concatenation of the tokens, in order. */
  function Concat(tokens: seq<string>): (r: string)
    ensures |tokens| == 0 ==> r == ""
  {
    if tokens == [] then "" else Concat(tokens[..|tokens| - 1]) + tokens[|tokens| - 1]
  }

  /**
   * The texts rendered while `tokens` are appended, one by one, to `initial`:
   * the k-th render is `initial` followed by the first k + 1 tokens.
   */
  function RenderLog(initial: string, tokens: seq<string>): (r: seq<string>)
    ensures |r| == |tokens|
    ensures forall k :: 0 <= k < |tokens| ==> r[k] == initial + Concat(tokens[..k + 1])
  {
    if tokens == [] then []
    else
      var n := |tokens| - 1;
      var r := RenderLog(initial, tokens[..n]) + [initial + Concat(tokens)];
      assert tokens[..n + 1] == tokens;
      forall j | 0 <= j <= n ensures tokens[..n][..j] == tokens[..j] {
      }
      r
  }

  /** The token texts of `events`, and which of them are relayed: those not of the ignored run. */
  function TokenTexts(events: seq<(string, Option<RunId>)>): (r: seq<string>)
    ensures |r| == |events|
    ensures forall k :: 0 <= k < |events| ==> r[k] == events[k].0
  {
    seq(|events|, k requires 0 <= k < |events| => events[k].0)
  }

  function RelayMask(ignore: Option<RunId>, events: seq<(string, Option<RunId>)>): (r: seq<bool>)
    ensures |r| == |events|
    ensures forall k :: 0 <= k < |events| ==> (r[k] <==> events[k].1 != ignore)
  {
    seq(|events|, k requires 0 <= k < |events| => events[k].1 != ignore)
  }

  /** The tokens a handler ignoring `ignore` appends, in arrival order. */
  function Relayed(ignore: Option<RunId>, events: seq<(string, Option<RunId>)>): (r: seq<string>)
    ensures |r| <= |events|
    ensures forall t :: t in r ==> t in TokenTexts(events)
  {
    Select(TokenTexts(events), RelayMask(ignore, events))
  }

  /** `StreamHandler`, the handler `get_streamlit_cb` builds around a container. */
  class StreamHandler {
    var text: string
    var runIdIgnoreToken: Option<RunId>
    /** Every text passed to the container's `markdown`, oldest first. */
    var renders: seq<string>
    /** `st.session_state`, whose `spinner_active` flag each token clears. */
    const session: SessionState

    /** A fresh handler shows `initialText`, ignores no run and has rendered nothing. */
    constructor (session: SessionState, initialText: string)
      ensures this.session == session
      ensures text == initialText && runIdIgnoreToken == None && renders == []
    {
      this.session := session;
      text := initialText;
      runIdIgnoreToken := None;
      renders := [];
    }

    /**
     * `on_llm_start`: a run whose first prompt starts with "Human" is the
     * rephrasing call; its id (possibly absent) becomes the ignored one,
     * replacing any earlier one. An empty prompt list raises `IndexError`.
     */
    method OnLlmStart(prompts: seq<string>, runId: Option<RunId>) returns (raised: Option<PyError>)
      modifies this`runIdIgnoreToken
      ensures raised == (if prompts == [] then Some(IndexError) else None)
      ensures runIdIgnoreToken ==
              if prompts != [] && "Human" <= prompts[0] then runId else old(runIdIgnoreToken)
    {
      if prompts == [] {
        return Some(IndexError);
      }
      if "Human" <= prompts[0] {
        runIdIgnoreToken := runId;
      }
      return None;
    }

    /**
     * `on_llm_new_token`: always clears the spinner; a token of the ignored
     * run is dropped, any other one is appended and the whole text re-rendered.
     */
    method OnLlmNewToken(token: string, runId: Option<RunId>)
      modifies this`text, this`renders, session`spinnerActive
      ensures !session.spinnerActive
      ensures runIdIgnoreToken == runId ==> text == old(text) && renders == old(renders)
      ensures runIdIgnoreToken != runId ==>
                text == old(text) + token && renders == old(renders) + [text]
    {
      session.spinnerActive := false;
      if runIdIgnoreToken == runId {
        return;
      }
      text := text + token;
      renders := renders + [text];
    }

    /**
     * Delivers a stream of `(token, run id)` events one by one. The text grows
     * by exactly the relayed tokens and the log gains one render per relayed
     * token, each the text so far.
     */
    method ReceiveTokens(events: seq<(string, Option<RunId>)>)
      modifies this`text, this`renders, session`spinnerActive
      ensures text == old(text) + Concat(Relayed(runIdIgnoreToken, events))
      ensures renders == old(renders) + RenderLog(old(text), Relayed(runIdIgnoreToken, events))
      ensures |events| > 0 ==> !session.spinnerActive
      ensures |events| == 0 ==> session.spinnerActive == old(session.spinnerActive)
    {
      var texts := TokenTexts(events);
      var mask := RelayMask(runIdIgnoreToken, events);
      ghost var relayed: seq<string> := [];
      for i := 0 to |events|
        invariant relayed == Select(texts[..i], mask[..i])
        invariant text == old(text) + Concat(relayed)
        invariant renders == old(renders) + RenderLog(old(text), relayed)
        invariant i > 0 ==> !session.spinnerActive
        invariant i == 0 ==> session.spinnerActive == old(session.spinnerActive)
      {
        var (token, runId) := events[i];
        OnLlmNewToken(token, runId);
        SelectSnoc(texts, mask, i);
        if runIdIgnoreToken != runId {
          AppendStep(old(renders), old(text), relayed, token);
          relayed := relayed + [token];
        }
      }
      assert texts[..|events|] == texts && mask[..|events|] == mask;
    }
  }

  /** `get_streamlit_cb`: a handler with empty initial text. */
  method GetStreamlitCallback(session: SessionState) returns (handler: StreamHandler)
    ensures fresh(handler) && handler.session == session
    ensures handler.text == "" && handler.runIdIgnoreToken == None && handler.renders == []
  {
    handler := new StreamHandler(session, "");
  }

  /** Appending one token extends the text by it and the log by the new text. */
  lemma RenderLogSnoc(initial: string, tokens: seq<string>, t: string)
    ensures Concat(tokens + [t]) == Concat(tokens) + t
    ensures RenderLog(initial, tokens + [t]) == RenderLog(initial, tokens) + [initial + (Concat(tokens) + t)]
  {
    assert (tokens + [t])[..|tokens|] == tokens;
  }

  /** `RenderLogSnoc` in the shape one relayed token gives the handler's text and log. */
  lemma AppendStep(before: seq<string>, initial: string, tokens: seq<string>, t: string)
    ensures initial + Concat(tokens + [t]) == (initial + Concat(tokens)) + t
    ensures before + RenderLog(initial, tokens + [t]) ==
            (before + RenderLog(initial, tokens)) + [(initial + Concat(tokens)) + t]
  {
    RenderLogSnoc(initial, tokens, t);
    assert initial + (Concat(tokens) + t) == (initial + Concat(tokens)) + t;
  }

  /** Concatenation distributes over appending token lists. */
  lemma {:induction false} ConcatAppend(a: seq<string>, b: seq<string>)
    ensures Concat(a + b) == Concat(a) + Concat(b)
  {
    if b != [] {
      var n := |b| - 1;
      assert (a + b)[..|a + b| - 1] == a + b[..n];
      ConcatAppend(a, b[..n]);
    } else {
      assert a + b == a;
    }
  }

  /** Each render extends the one before: the log is a chain of prefixes ending in the full text. */
  lemma RenderLogPrefixes(initial: string, tokens: seq<string>)
    ensures forall k, l :: 0 <= k <= l < |tokens| ==>
              RenderLog(initial, tokens)[k] <= RenderLog(initial, tokens)[l]
    ensures |tokens| > 0 ==> RenderLog(initial, tokens)[|tokens| - 1] == initial + Concat(tokens)
  {
    var r := RenderLog(initial, tokens);
    forall k, l | 0 <= k <= l < |tokens| ensures r[k] <= r[l] {
      assert tokens[..l + 1] == tokens[..k + 1] + tokens[k + 1..l + 1];
      ConcatAppend(tokens[..k + 1], tokens[k + 1..l + 1]);
    }
    if |tokens| > 0 {
      assert tokens[..|tokens|] == tokens;
    }
  }

  /** Relayed tokens are exactly the events not of the ignored run, in arrival order. */
  lemma RelayedExact(ignore: Option<RunId>, events: seq<(string, Option<RunId>)>)
    ensures |Relayed(ignore, events)| == |SelectedIndices(RelayMask(ignore, events))|
    ensures forall k :: 0 <= k < |Relayed(ignore, events)| ==>
              var i := SelectedIndices(RelayMask(ignore, events))[k];
              Relayed(ignore, events)[k] == events[i].0 && events[i].1 != ignore
    ensures forall i :: 0 <= i < |events| ==>
              (i in SelectedIndices(RelayMask(ignore, events)) <==> events[i].1 != ignore)
  {
    SelectAtIndices(TokenTexts(events), RelayMask(ignore, events));
    forall i | 0 <= i < |events|
      ensures i in SelectedIndices(RelayMask(ignore, events)) <==> events[i].1 != ignore
    {
      SelectedIndicesExact(RelayMask(ignore, events), i);
    }
  }

  /** Tokens of the ignored run contribute nothing. */
  lemma IgnoredRunShowsNothing(ignore: Option<RunId>, events: seq<(string, Option<RunId>)>)
    requires forall k :: 0 <= k < |events| ==> events[k].1 == ignore
    ensures Relayed(ignore, events) == []
  {
    SelectNone(TokenTexts(events), RelayMask(ignore, events));
  }

  /** When no event belongs to the ignored run, every token is relayed. */
  lemma OtherRunShowsAll(ignore: Option<RunId>, events: seq<(string, Option<RunId>)>)
    requires forall k :: 0 <= k < |events| ==> events[k].1 != ignore
    ensures Relayed(ignore, events) == TokenTexts(events)
  {
    SelectAll(TokenTexts(events), RelayMask(ignore, events));
  }

  /**
   * A fresh handler has no ignored run, so tokens that arrive without a run id
   * compare equal to it and are dropped; tokens with a run id are all shown.
   */
  lemma FreshHandlerDropsUnidentifiedTokens(events: seq<(string, Option<RunId>)>)
    ensures (forall k :: 0 <= k < |events| ==> events[k].1 == None) ==> Relayed(None, events) == []
    ensures (forall k :: 0 <= k < |events| ==> events[k].1.Some?) ==>
              Relayed(None, events) == TokenTexts(events)
  {
    if forall k :: 0 <= k < |events| ==> events[k].1 == None {
      IgnoredRunShowsNothing(None, events);
    }
    if forall k :: 0 <= k < |events| ==> events[k].1.Some? {
      OtherRunShowsAll(None, events);
    }
  }

  /**
   * One question: the rephrasing run "r1" streams a token that is never shown,
   * then the answering run "r2" streams "Hel" and "lo".
   */
  method RephraseThenAnswer(session: SessionState) returns (text: string, renders: seq<string>)
    modifies session`spinnerActive
    ensures text == "Hello" && renders == ["Hel", "Hello"]
    ensures !session.spinnerActive
  {
    var handler := new StreamHandler(session, "");
    assert "Human" <= "Human: rephrase the question";
    var _ := handler.OnLlmStart(["Human: rephrase the question"], Some("r1"));
    handler.OnLlmNewToken("What is Rubin?", Some("r1"));
    assert handler.text == "" && handler.renders == [];
    assert "System: answer from the context"[0] != "Human"[0];
    var _ := handler.OnLlmStart(["System: answer from the context"], Some("r2"));
    assert handler.runIdIgnoreToken == Some("r1");
    assert "r1"[1] != "r2"[1];
    handler.OnLlmNewToken("Hel", Some("r2"));
    assert "" + "Hel" == "Hel";
    assert handler.text == "Hel" && handler.renders == [] + ["Hel"];
    handler.OnLlmNewToken("lo", Some("r2"));
    assert "Hel" + "lo" == "Hello";
    assert handler.renders == ["Hel"] + ["Hello"];
    text, renders := handler.text, handler.renders;
  }
}
