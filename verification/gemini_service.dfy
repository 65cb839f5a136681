/** The calls to the generative model: the replies are free text, from which a JSON object is
    dug out by slicing between braces, retrying without control characters, or stripping
    Markdown fences. The model itself, the prompts and JSON parsing are parameters. */
module GeminiService {
  import opened Common
  import opened JsText

  /** The slice from the first '{' through the last '}', when the last comes after the first. */
  function Candidate(text: string): (r: Option<string>)
    ensures r.Some? <==> IndexOf(text, '{').Some? && LastIndexOf(text, '}').Some?
                         && LastIndexOf(text, '}').value > IndexOf(text, '{').value
    ensures r.Some? ==> |r.value| >= 2 && r.value[0] == '{' && r.value[|r.value| - 1] == '}'
  {
    var open := IndexOf(text, '{');
    var close := LastIndexOf(text, '}');
    if open.Some? && close.Some? && close.value > open.value then Some(text[open.value..close.value + 1])
    else None
  }

  /** An object surrounded by chatter with no '{' before it and no '}' after it is found
      exactly. */
  lemma CandidateOfWrapped(pre: string, body: string, post: string)
    requires '{' !in pre && '}' !in post
    requires |body| >= 2 && body[0] == '{' && body[|body| - 1] == '}'
    ensures Candidate(pre + body + post) == Some(body)
  {
    var text := pre + body + post;
    IndexOfIs(text, '{', |pre|);
    LastIndexOfIs(text, '}', |pre| + |body| - 1);
    assert text[|pre|..|pre| + |body|] == body;
  }

  /** The characters `/[\u0000-\u001F\u007F-\u009F]/` matches. */
  predicate IsControl(c: char) {
    c as int <= 0x1F || 0x7F <= c as int <= 0x9F
  }

  /** `s.replace(/[\u0000-\u001F\u007F-\u009F]/g, "")`. */
  function Sanitize(s: string): (r: string)
    ensures |r| <= |s|
    ensures forall i :: 0 <= i < |r| ==> !IsControl(r[i])
  {
    if s == [] then [] else (if IsControl(s[0]) then [] else [s[0]]) + Sanitize(s[1..])
  }

  /** Sanitising works piece by piece, so the characters it keeps keep their order. */
  lemma {:induction false} SanitizeAppend(a: string, b: string)
    ensures Sanitize(a + b) == Sanitize(a) + Sanitize(b)
  {
    if a == [] {
      assert a + b == b;
    } else {
      var h := if IsControl(a[0]) then [] else [a[0]];
      assert (a + b)[1..] == a[1..] + b;
      assert Sanitize(a + b) == h + Sanitize(a[1..] + b);
      SanitizeAppend(a[1..], b);
      assert h + (Sanitize(a[1..]) + Sanitize(b)) == (h + Sanitize(a[1..])) + Sanitize(b);
    }
  }

  /** Text without control characters is left as it is. */
  lemma {:induction false} SanitizeClean(a: string)
    requires forall i :: 0 <= i < |a| ==> !IsControl(a[i])
    ensures Sanitize(a) == a
  {
    if a != [] {
      assert forall i :: 0 <= i < |a[1..]| ==> a[1..][i] == a[i + 1];
      SanitizeClean(a[1..]);
      assert a == [a[0]] + a[1..];
    }
  }

  /** The fallback cleaning: every "```json", then every "```", removed, and the rest trimmed. */
  function StripFences(text: string): string {
    Trim(RemoveAll(RemoveAll(text, "```json"), "```"))
  }

  /** A reply fenced as a Markdown JSON block comes out as its trimmed body, and a reply
      without backticks is only trimmed. */
  lemma StripFencesFacts(body: string)
    requires '`' !in body
    ensures StripFences("```json" + body + "```") == Trim(body)
    ensures StripFences(body) == Trim(body)
  {
    var fenced := "```json" + body + "```";
    RemoveAllPrefix("```json", body + "```");
    assert fenced == "```json" + (body + "```");
    RemoveAllSkip(body, "```", "```json");
    assert RemoveAll("```", "```json") == "```";
    RemoveAllSkip(body, "```", "```");
    RemoveAllPrefix("```", []);
    assert "```" + [] == "```";
    assert body + [] == body;
    RemoveAllSkip(body, [], "```json");
    RemoveAllSkip(body, [], "```");
  }

  /** The JSON in a reply: the brace slice parsed as it is, or else after sanitising; without a
      brace pair, the fence-stripped text; `None` where the source throws. */
  function ExtractJson(text: string, parse: string -> Option<Json>): Option<Json> {
    match Candidate(text)
    case Some(c) => if parse(c).Some? then parse(c) else parse(Sanitize(c))
    case None => parse(StripFences(text))
  }

  /** A reply that wraps a parsable object in chatter (no '{' before it, no '}' after it)
      yields that object; one whose object parses only without its control characters yields
      the sanitised parse. */
  lemma ExtractFromChatter(pre: string, body: string, post: string, parse: string -> Option<Json>)
    requires '{' !in pre && '}' !in post
    requires |body| >= 2 && body[0] == '{' && body[|body| - 1] == '}'
    ensures parse(body).Some? ==> ExtractJson(pre + body + post, parse) == parse(body)
    ensures parse(body).None? ==> ExtractJson(pre + body + post, parse) == parse(Sanitize(body))
  {
    CandidateOfWrapped(pre, body, post);
  }

  // ---------------------------------------------------------------------------------------
  // Calls

  datatype ImageBuffer = ImageBuffer(buffer: seq<bv8>, mimeType: string)

  /** A part of a request: text, or inline data with its MIME type. */
  datatype Part = TextPart(text: string) | InlinePart(data: seq<bv8>, mimeType: string)

  /** The prompt followed by one inline part per image, in order. */
  function Parts(prompt: string, images: seq<ImageBuffer>): (ps: seq<Part>)
    ensures |ps| == |images| + 1 && ps[0] == TextPart(prompt)
    ensures forall i :: 0 <= i < |images| ==> ps[i + 1] == InlinePart(images[i].buffer, images[i].mimeType)
  {
    [TextPart(prompt)] + seq(|images|, i requires 0 <= i < |images| => InlinePart(images[i].buffer, images[i].mimeType))
  }

  /** `parts.push(...)` for every image. */
  method BuildParts(prompt: string, images: seq<ImageBuffer>) returns (parts: seq<Part>)
    ensures parts == Parts(prompt, images)
  {
    parts := [TextPart(prompt)];
    for i := 0 to |images|
      invariant |parts| == i + 1 && parts[0] == TextPart(prompt)
      invariant forall j :: 0 <= j < i ==> parts[j + 1] == InlinePart(images[j].buffer, images[j].mimeType)
    {
      parts := parts + [InlinePart(images[i].buffer, images[i].mimeType)];
    }
  }

  /** The analysis call: the model receives the prompt and the images; any failure, of the call
      or of the extraction, becomes one fixed error. */
  method AnalyzeHealthData(prompt: string, images: seq<ImageBuffer>,
                           generate: seq<Part> -> Result<string, string>, parse: string -> Option<Json>)
    returns (r: Result<Json, string>)
    ensures r.Failure? ==> r.error == "Failed to analyze data with AI"
    ensures var reply := generate(Parts(prompt, images));
            (r.Success? <==> reply.Success? && ExtractJson(reply.value, parse).Some?)
            && (r.Success? ==> r.value == ExtractJson(reply.value, parse).value)
  {
    var parts := BuildParts(prompt, images);
    var reply := generate(parts);
    if reply.Failure? {
      return Failure("Failed to analyze data with AI");
    }
    var json := ExtractJson(reply.value, parse);
    if json.None? {
      return Failure("Failed to analyze data with AI");
    }
    return Success(json.value);
  }

  /** The health-plan call never fails: any failure gives `None`. */
  function GenerateHealthPlan(reply: Result<string, string>, parse: string -> Option<Json>): (r: Option<Json>)
    ensures r.Some? <==> reply.Success? && ExtractJson(reply.value, parse).Some?
    ensures r.Some? ==> r == ExtractJson(reply.value, parse)
  {
    if reply.Failure? then None else ExtractJson(reply.value, parse)
  }
}
