/** The art critic (app/services/geminiService.ts): the fallbacks for a missing API key and for any
    failure, the image payload taken from the data URL, and the cleanup of the model's answer. The
    model call and `JSON.parse` are oracles. */
module CritiqueService {
  import opened Types
  import JsText

  const MISSING_KEY_REPLY: AICritiqueResponse := AICritiqueResponse(
    "Untitled Mystery",
    "I cannot see this masterpiece because my inner eye (API Key) is missing. Please configure it!")

  const GLITCHED_REPLY: AICritiqueResponse := AICritiqueResponse(
    "The Glitched Canvas",
    "My vision is clouded (Error connecting to AI). Perhaps it is too avant-garde for me.")

  const FENCE: string := "```"
  const JSON_FENCE: string := "```json"

  /** What the model call does with the inline image data: answer with text, or throw. */
  datatype ModelReply = Text(text: string) | Threw

  /** The critique and the image payloads sent to the model (at most one). */
  datatype Critique = Critique(response: AICritiqueResponse, requests: seq<Option<string>>)

  /** `s.split(',')[1]`: the text between the first and the second comma (or the end); absent
      (`undefined`) when there is no comma. */
  function SecondField(s: string): (r: Option<string>)
    ensures r.None? <==> ',' !in s
    ensures r.Some? ==> ',' !in r.value && |r.value| < |s|
  {
    var i := JsText.IndexOf(s, ',');
    if i == |s| then
      assert s[..i] == s;
      None
    else
      var rest := s[i + 1..];
      var j := JsText.IndexOf(rest, ',');
      assert rest[..j][..] == rest[..j];
      Some(rest[..j])
  }

  /** A data URL `<header>,<payload>` with a comma-free base64 payload yields exactly the payload. */
  lemma DataUrlPayload(header: string, payload: string)
    requires ',' !in header && ',' !in payload
    ensures SecondField(header + "," + payload) == Some(payload)
  {
    var s := header + "," + payload;
    JsText.IndexOfAfter(header, ',', payload);
    assert s[|header| + 1..] == payload;
    assert payload[..|payload|] == payload;
  }

  /** Three backticks start at position `i`. */
  predicate FenceAt(t: string, i: nat) {
    i + 3 <= |t| && t[i] == '`' && t[i + 1] == '`' && t[i + 2] == '`'
  }

  ghost predicate NoFence(t: string) {
    forall i: nat :: i < |t| ==> !FenceAt(t, i)
  }

  /** `.replace(/```json/g, '').replace(/```/g, '').trim()` */
  function CleanResponse(text: string): (r: string)
    ensures NoFence(r)
  {
    var unfenced := JsText.RemoveAll(JsText.RemoveAll(text, JSON_FENCE), FENCE);
    RemoveAllLeavesNoFence(JsText.RemoveAll(text, JSON_FENCE));
    var r := JsText.Trim(unfenced);
    NoFenceInSlice(unfenced, r);
    r
  }

  lemma HeadKept(s: string)
    requires |s| > 0 && s[0] != '`'
    ensures |JsText.RemoveAll(s, FENCE)| > 0 && JsText.RemoveAll(s, FENCE)[0] == s[0]
  {
    if |s| >= |FENCE| {
      assert s[..|FENCE|][0] != FENCE[0];
    }
  }

  /** Removing every "```" in one left-to-right scan cannot join backticks into a new one. */
  lemma {:induction false} RemoveAllLeavesNoFence(s: string)
    ensures NoFence(JsText.RemoveAll(s, FENCE))
    decreases |s|
  {
    var r := JsText.RemoveAll(s, FENCE);
    if |s| < |FENCE| {
      assert r == s;
      forall i: nat
        ensures !FenceAt(r, i)
      {
      }
    } else if s[..|FENCE|] == FENCE {
      RemoveAllLeavesNoFence(s[|FENCE|..]);
    } else {
      var r' := JsText.RemoveAll(s[1..], FENCE);
      RemoveAllLeavesNoFence(s[1..]);
      assert r == [s[0]] + r';
      forall i: nat
        ensures !FenceAt(r, i)
      {
        if i > 0 {
          assert !FenceAt(r', i - 1);
        } else if s[0] == '`' && |r| >= 3 {
          NoFenceAtHead(s, r');
        }
      }
    }
  }

  /** The step of the scan that keeps a backtick: the text after it does not begin with two more. */
  lemma NoFenceAtHead(s: string, r': string)
    requires |s| >= |FENCE| && s[..|FENCE|] != FENCE && s[0] == '`'
    requires r' == JsText.RemoveAll(s[1..], FENCE) && |r'| >= 2
    ensures !(r'[0] == '`' && r'[1] == '`')
  {
    if s[1] != '`' {
      HeadKept(s[1..]);
    } else {
      assert s[..|FENCE|][2] == s[2];
      if |s| > |FENCE| {
        var r2 := JsText.RemoveAll(s[2..], FENCE);
        HeadKept(s[2..]);
        assert s[1..][..|FENCE|][1] == s[2];
        assert s[1..][1..] == s[2..];
        assert r' == [s[1]] + r2;
      }
    }
  }

  lemma NoFenceInSlice(t: string, r: string)
    requires NoFence(t)
    requires exists i, j :: 0 <= i <= j <= |t| && r == t[i..j]
    ensures NoFence(r)
  {
    var i, j :| 0 <= i <= j <= |t| && r == t[i..j];
    forall k: nat
      ensures !FenceAt(r, k)
    {
      assert !FenceAt(t, i + k);
    }
  }

  /** An answer wrapped in a ```json fence around a body without backticks comes out as the body,
      trimmed. */
  lemma {:induction false} FencedAnswer(body: string)
    requires '`' !in body
    ensures CleanResponse(JSON_FENCE + body + FENCE) == JsText.Trim(body)
  {
    var s := JSON_FENCE + body + FENCE;
    assert s[..|JSON_FENCE|] == JSON_FENCE;
    assert s[|JSON_FENCE|..] == body + FENCE;
    JsText.RemoveAllKeepsPrefix(body, FENCE, JSON_FENCE);
    assert JsText.RemoveAll(FENCE, JSON_FENCE) == FENCE;
    JsText.RemoveAllKeepsPrefix(body, FENCE, FENCE);
    assert FENCE[..|FENCE|] == FENCE;
    assert JsText.RemoveAll(FENCE, FENCE) == [];
    assert body + [] == body;
  }

  /** `analyzeDoodle`. `generate` stands for the model call on the image payload, `parse` for
      `JSON.parse` of the cleaned text (None when it throws). No failure reaches the caller. */
  function AnalyzeDoodle(apiKey: string, dataUrl: string, generate: Option<string> -> ModelReply,
                         parse: string -> Option<AICritiqueResponse>): (r: Critique)
    ensures apiKey == "" <==> r.requests == []
    ensures apiKey == "" ==> r.response == MISSING_KEY_REPLY
    ensures apiKey != "" ==> r.requests == [SecondField(dataUrl)]
    ensures apiKey != "" && generate(SecondField(dataUrl)).Threw? ==> r.response == GLITCHED_REPLY
    ensures apiKey != "" && generate(SecondField(dataUrl)).Text? ==>
              var parsed := parse(CleanResponse(generate(SecondField(dataUrl)).text));
              r.response == (if parsed.Some? then parsed.value else GLITCHED_REPLY)
  {
    if apiKey == "" then Critique(MISSING_KEY_REPLY, [])
    else
      var base64Data := SecondField(dataUrl);
      match generate(base64Data)
      case Threw => Critique(GLITCHED_REPLY, [base64Data])
      case Text(text) =>
        match parse(CleanResponse(text))
        case Some(response) => Critique(response, [base64Data])
        case None => Critique(GLITCHED_REPLY, [base64Data])
  }
}
