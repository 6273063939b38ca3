/**
 * `safeJsonParse`: reading the JSON text the language model answers with.
 * The fences the model tends to wrap its answer in are removed first; a
 * missing answer or one that `JSON.parse` rejects gives `null`.
 */
module ArtifactParser {
  import opened JsValue
  import opened JsString

  const JsonFence: string := "```json"
  const Fence: string := "```"

  /**
   * `text.replace(/^```json\s*|```$/g, '')`: an opening "```json" and the white
   * space after it, and a closing "```" at the very end. The closing fence
   * can never overlap the opening match, which ends in a letter or in white space.
   */
  function StripFences(text: string): (r: string)
    ensures |r| <= |text|
    ensures !StartsWith(text, JsonFence) ==> r <= text
  {
    var afterOpening := if StartsWith(text, JsonFence) then TrimStart(text[|JsonFence|..]) else text;
    if EndsWith(afterOpening, Fence) then afterOpening[..|afterOpening| - |Fence|] else afterOpening
  }

  /** The text handed to `JSON.parse`. */
  function Clean(text: string): (r: string)
    ensures |r| <= |text|
    ensures r == [] || (!IsSpace(r[0]) && !IsSpace(r[|r| - 1]))
  {
    Trim(StripFences(text))
  }

  /**
   * `safeJsonParse(text)`; `parse` is `JSON.parse`, `None` standing for a
   * `SyntaxError`. The catch block turns every failure into `null`, so this
   * never throws.
   */
  function SafeJsonParse(text: string, parse: string -> Option<Value>): (r: Value)
    ensures text == "" ==> r == Null
    ensures r == Null || (text != "" && parse(Clean(text)) == Some(r))
  {
    if text == "" then Null
    else match parse(Clean(text))
      case Some(v) => v
      case None => Null
  }

  /** The three outcomes: no text, text the parser rejects, text it accepts. */
  lemma SafeJsonParseOutcomes(text: string, parse: string -> Option<Value>)
    ensures text == "" ==> SafeJsonParse(text, parse) == Null
    ensures parse(Clean(text)).None? ==> SafeJsonParse(text, parse) == Null
    ensures text != "" && parse(Clean(text)).Some? ==> SafeJsonParse(text, parse) == parse(Clean(text)).value
  {
  }

  /** A "```json" block: the parser sees the trimmed body, whatever white space follows the opening. */
  lemma FencedBlockIsUnwrapped(w: string, body: string)
    requires forall i :: 0 <= i < |w| ==> IsSpace(w[i])
    ensures Clean(JsonFence + w + body + Fence) == Trim(body)
  {
    FencesOfBlockRemoved(w, body);
    TrimStartIdempotent(body);
  }

  /** Both fences of such a block go, and with them the white space before the body. */
  lemma FencesOfBlockRemoved(w: string, body: string)
    requires forall i :: 0 <= i < |w| ==> IsSpace(w[i])
    ensures StripFences(JsonFence + w + body + Fence) == TrimStart(body)
  {
    var text := JsonFence + w + body + Fence;
    assert StartsWith(text, JsonFence) by {
      assert text[..|JsonFence|] == JsonFence;
    }
    assert text[|JsonFence|..] == w + (body + Fence);
    TrimStartSkipsSpace(w, body + Fence);
    TrimStartKeepsTail(body, Fence);
    var a := TrimStart(body) + Fence;
    assert EndsWith(a, Fence) by {
      assert a[|a| - |Fence|..] == Fence;
    }
    assert a[..|a| - |Fence|] == TrimStart(body);
  }

  /** Text without fences is only trimmed. */
  lemma UnfencedTextIsTrimmed(text: string)
    requires !StartsWith(text, JsonFence) && !EndsWith(text, Fence)
    ensures Clean(text) == Trim(text)
  {
  }

  /**
   * A bare "```" opening fence is not removed (only "```json" is), so a block
   * fenced that way still starts with the backticks when it reaches the parser.
   */
  lemma BareOpeningFenceIsKept(body: string)
    requires !StartsWith(body, "json")
    ensures StartsWith(Clean(Fence + body + Fence), Fence)
  {
    var text := Fence + body + Fence;
    BareFenceIsNotJsonFence(body);
    assert EndsWith(text, Fence) by {
      assert text[|text| - |Fence|..] == Fence;
    }
    var s := text[..|text| - |Fence|];
    assert s == Fence + body;
    TrimStartKeepsTail([], s);
    assert TrimStart(s) == s;
    var t := TrimEnd(s);
    assert |t| >= |Fence| by {
      assert !IsSpace(s[|Fence| - 1]);
    }
    assert t[..|Fence|] == s[..|Fence|];
  }

  /** Backticks followed by anything but "json" do not open a "```json" fence. */
  lemma BareFenceIsNotJsonFence(body: string)
    requires !StartsWith(body, "json")
    ensures !StartsWith(Fence + body + Fence, JsonFence)
  {
    var text := Fence + body + Fence;
    if |body| >= 4 {
      assert text[3..7] == body[..4];
    } else {
      assert text[3 + |body|] == '`';
    }
  }
}
