/** Clean-up of Gemini output and the two Gemini-backed parsers of
    services/parsers.py. */
module Parsers {
  import opened Wrappers
  import opened PyStrings
  import opened Http
  import opened External
  import opened Schemas

  const Fence := "```"

  /** A character of the regex class `\w`, over ASCII. */
  predicate IsWordChar(c: char) {
    'a' <= c <= 'z' || 'A' <= c <= 'Z' || '0' <= c <= '9' || c == '_'
  }

  predicate IsNewline(c: char) {
    c == '\n'
  }

  /** `h` is text the pattern "```" `[\w]*` `\n*` matches: the fence, a language tag and
      some line breaks. */
  predicate FenceOpener(h: string) {
    StartsWith(h, Fence) &&
    exists j {:trigger h[3..j]} :: 3 <= j <= |h| && (forall i :: 3 <= i < j ==> IsWordChar(h[i]))
      && (forall i :: j <= i < |h| ==> IsNewline(h[i]))
  }

  /** `re.sub(r"^```[\w]*\n*", "", s)`: the anchored opening fence, with its tag and
      the line breaks after it, is removed once; both repetitions are greedy. */
  function StripLeadingFence(s: string): (r: string)
    ensures |r| <= |s| && s[|s| - |r|..] == r
    ensures !StartsWith(s, Fence) ==> r == s
    ensures StartsWith(s, Fence) ==> FenceOpener(s[..|s| - |r|]) && (r != [] ==> !IsNewline(r[0]))
  {
    if !StartsWith(s, Fence) then s
    else
      var t := s[3..];
      var w := Span(t, IsWordChar);
      var n := Span(t[w..], IsNewline);
      var r := t[w + n..];
      assert s[..|s| - |r|][3..3 + w] == t[..w];
      r
  }

  /** `re.sub(r"\n*```$", "", s)`. Without MULTILINE, `$` matches at the end and also
      just before a final line break, so a fence followed by one "\n" is removed too
      and that "\n" stays. The match starts at the first of the line breaks right
      before the fence. */
  function StripTrailingFence(s: string): (r: string)
    ensures EndsWith(s, Fence) ==>
              (|r| <= |s| - 3 && s[..|r|] == r
               && (forall i :: |r| <= i < |s| - 3 ==> IsNewline(s[i]))
               && (r != [] ==> !IsNewline(r[|r| - 1])))
    ensures EndsWith(s, Fence + "\n") ==>
              (1 <= |r| <= |s| - 3 && r == s[..|r| - 1] + "\n"
               && (forall i :: |r| - 1 <= i < |s| - 4 ==> IsNewline(s[i]))
               && (|r| > 1 ==> !IsNewline(r[|r| - 2])))
    ensures !EndsWith(s, Fence) && !EndsWith(s, Fence + "\n") ==> r == s
  {
    if EndsWith(s, Fence) then
      FenceEndsDiffer(s);
      var m := |s| - 3;
      var k := SpanBack(s[..m], IsNewline);
      assert forall i :: m - k <= i < m ==> s[..m][i] == s[i];
      assert m - k > 0 ==> s[..m][m - k - 1] == s[m - k - 1];
      s[..m - k]
    else if EndsWith(s, Fence + "\n") then
      var m := |s| - 4;
      var k := SpanBack(s[..m], IsNewline);
      var r := s[..m - k] + "\n";
      assert forall i :: m - k <= i < m ==> s[..m][i] == s[i];
      assert m - k > 0 ==> s[..m][m - k - 1] == s[m - k - 1] == r[|r| - 2];
      r
    else s
  }

  lemma FenceEndsDiffer(s: string)
    requires EndsWith(s, Fence)
    ensures !EndsWith(s, Fence + "\n")
  {
    assert s[|s| - 1] == s[|s| - 3..][2] == '`';
  }

  /** `extract_json_from_gemini_response`. */
  function ExtractJson(text: string): (r: string)
    ensures r == [] || (!IsSpace(r[0]) && !IsSpace(r[|r| - 1]))
  {
    Strip(StripTrailingFence(StripLeadingFence(Strip(text))))
  }

  lemma SpanIs(t: string, p: char -> bool, k: nat)
    requires k <= |t| && (forall i :: 0 <= i < k ==> p(t[i])) && (k < |t| ==> !p(t[k]))
    ensures Span(t, p) == k
  {
  }

  lemma SpanBackIs(t: string, p: char -> bool, k: nat)
    requires k <= |t| && (forall i :: |t| - k <= i < |t| ==> p(t[i])) && (k < |t| ==> !p(t[|t| - k - 1]))
    ensures SpanBack(t, p) == k
  {
  }

  /** The opening fence pattern ends exactly where its tag and its line breaks end. */
  lemma LeadingFenceIs(s: string, j: nat, n: nat)
    requires StartsWith(s, Fence) && 3 <= j <= n <= |s|
    requires forall i :: 3 <= i < j ==> IsWordChar(s[i])
    requires j < |s| ==> !IsWordChar(s[j])
    requires forall i :: j <= i < n ==> IsNewline(s[i])
    requires n < |s| ==> !IsNewline(s[n])
    ensures StripLeadingFence(s) == s[n..]
  {
    var t := s[3..];
    SpanIs(t, IsWordChar, j - 3);
    SpanIs(t[j - 3..], IsNewline, n - j);
    assert t[n - 3..] == s[n..];
  }

  /** The closing fence pattern starts at the first of the line breaks before it. */
  lemma TrailingFenceIs(s: string, m: nat)
    requires EndsWith(s, Fence) && m <= |s| - 3
    requires forall i :: m <= i < |s| - 3 ==> IsNewline(s[i])
    requires m > 0 ==> !IsNewline(s[m - 1])
    ensures StripTrailingFence(s) == s[..m]
  {
    SpanBackIs(s[..|s| - 3], IsNewline, |s| - 3 - m);
  }

  /** Text ending in a non-space character cannot end in a fence and a line break. */
  lemma NoFenceBeforeNewline(a: string)
    requires a == [] || !IsSpace(a[|a| - 1])
    ensures !EndsWith(a, Fence + "\n")
  {
  }

  /** Output with no fence at either end is only stripped. */
  lemma UnfencedIsStripped(text: string)
    requires !StartsWith(Strip(text), Fence) && !EndsWith(Strip(text), Fence)
    ensures ExtractJson(text) == Strip(text)
  {
    NoFenceBeforeNewline(Strip(text));
    StripIdempotent(text);
  }

  /** ExtractJson, one stage at a time. */
  lemma ExtractSteps(text: string, s: string, a: string, c: string)
    requires Strip(text) == s && StripLeadingFence(s) == a && StripTrailingFence(a) == c
    ensures ExtractJson(text) == Strip(c)
  {
  }

  function Fenced(tag: string, b: string): string {
    Fence + tag + "\n" + b + "\n" + Fence
  }

  lemma FencedShape(tag: string, b: string)
    ensures |Fenced(tag, b)| == |tag| + |b| + 8
    ensures StartsWith(Fenced(tag, b), Fence) && EndsWith(Fenced(tag, b), Fence)
    ensures forall i :: 3 <= i < 3 + |tag| ==> Fenced(tag, b)[i] == tag[i - 3]
    ensures Fenced(tag, b)[3 + |tag|] == '\n'
    ensures Fenced(tag, b)[4 + |tag|..] == b + "\n" + Fence
  {
    var s := Fenced(tag, b);
    assert s == Fence + (tag + ("\n" + (b + "\n" + Fence)));
  }

  lemma FencedOpener(tag: string, b: string)
    requires forall i :: 0 <= i < |tag| ==> IsWordChar(tag[i])
    requires b == [] || !IsSpace(b[0])
    ensures b != [] ==> StripLeadingFence(Fenced(tag, b)) == b + "\n" + Fence
    ensures b == [] ==> StripLeadingFence(Fenced(tag, b)) == Fence
  {
    var s := Fenced(tag, b);
    FencedShape(tag, b);
    var j := 3 + |tag|;
    if b == [] {
      assert s[j + 1..] == "\n" + Fence;
      assert s[j + 1] == '\n' && s[j + 2] == '`';
      LeadingFenceIs(s, j, j + 2);
      assert s[j + 2..] == Fence;
    } else {
      assert s[j + 1] == b[0];
      LeadingFenceIs(s, j, j + 1);
    }
  }

  lemma FencedCloser(b: string)
    requires b == [] || !IsSpace(b[|b| - 1])
    ensures StripTrailingFence(b + "\n" + Fence) == b
  {
    var v := b + "\n" + Fence;
    assert v[|b|] == '\n';
    assert b != [] ==> v[|b| - 1] == b[|b| - 1];
    TrailingFenceIs(v, |b|);
    assert v[..|b|] == b;
  }

  /** A body between an opening fence with any tag (such as "json") and a closing
      fence comes out unchanged, once it has no white space at either end. */
  lemma FencedBody(tag: string, b: string)
    requires forall i :: 0 <= i < |tag| ==> IsWordChar(tag[i])
    requires Trimmed(b)
    ensures ExtractJson(Fenced(tag, b)) == b
  {
    var s := Fenced(tag, b);
    FencedShape(tag, b);
    StripTrimmed(s);
    FencedOpener(tag, b);
    if b == [] {
      TrailingFenceIs(Fence, 0);
      ExtractSteps(s, s, Fence, []);
    } else {
      FencedCloser(b);
      ExtractSteps(s, s, b + "\n" + Fence, b);
    }
    StripTrimmed(b);
  }

  lemma FencedLiteral(tag: string, b: string, opener: string)
    requires forall i :: 0 <= i < |tag| ==> IsWordChar(tag[i])
    requires Trimmed(b)
    requires opener == Fence + tag + "\n"
    ensures ExtractJson(opener + b + "\n```") == b
  {
    FencedBody(tag, b);
    FencedForm(tag, b, opener);
  }

  lemma FencedForm(tag: string, b: string, opener: string)
    requires opener == Fence + tag + "\n"
    ensures Fenced(tag, b) == opener + b + "\n```"
  {
    assert "\n" + Fence == "\n```";
    calc {
      Fenced(tag, b);
      (Fence + tag + "\n") + b + "\n" + Fence;
      opener + b + ("\n" + Fence);
    }
  }

  /** The form Gemini is asked for, tagged "json". */
  lemma JsonFencedBody(b: string)
    requires Trimmed(b)
    ensures ExtractJson("```json\n" + b + "\n```") == b
  {
    FencedLiteral("json", b, "```json\n");
  }

  /** The same with a bare fence. */
  lemma BareFencedBody(b: string)
    requires Trimmed(b)
    ensures ExtractJson("```\n" + b + "\n```") == b
  {
    assert Fence + "" == Fence;
    FencedLiteral("", b, "```\n");
  }

  lemma SliceOfSlice(s: string, c: string, r: string, p: nat, i: nat)
    requires p + |c| <= |s| && s[p..p + |c|] == c
    requires i + |r| <= |c| && c[i..i + |r|] == r
    ensures s[p + i..p + i + |r|] == r
  {
    var x := s[p + i..p + i + |r|];
    forall k | 0 <= k < |r| ensures x[k] == r[k] {
      assert r[k] == c[i + k] == s[p..p + |c|][i + k];
    }
  }

  /** The closing fence is cut from the end only, when no "\n" ends the text. */
  lemma TrailingFencePrefix(a: string)
    requires a == [] || !IsSpace(a[|a| - 1])
    ensures |StripTrailingFence(a)| <= |a| && a[..|StripTrailingFence(a)|] == StripTrailingFence(a)
  {
    NoFenceBeforeNewline(a);
  }

  /** The result is one contiguous piece of the stripped output: each pattern is
      anchored and removed at most once. */
  lemma ExtractIsSlice(text: string)
    ensures exists i, j {:trigger Strip(text)[i..j]} :: 0 <= i <= j <= |Strip(text)| && Strip(text)[i..j] == ExtractJson(text)
  {
    var i, j := ExtractPiece(text);
  }

  /** Where the piece `ExtractJson` keeps lies in the stripped output. */
  lemma ExtractPiece(text: string) returns (i: nat, j: nat)
    ensures i <= j <= |Strip(text)| && Strip(text)[i..j] == ExtractJson(text)
  {
    var s := Strip(text);
    var p, c := FencesCutPiece(s);
    i, j := StrippedPiece(s, c, p);
  }

  /** Stripping a piece of `s` leaves a piece of `s`. */
  lemma StrippedPiece(s: string, c: string, p: nat) returns (i: nat, j: nat)
    requires p + |c| <= |s| && s[p..p + |c|] == c
    ensures i <= j <= |s| && s[i..j] == Strip(c)
  {
    StripIsSlice(c);
    SliceOfSlice(s, c, Strip(c), p, StripStart(c));
    i, j := p + StripStart(c), p + StripStart(c) + |Strip(c)|;
  }

  /** What is left once both fences are cut from text with no trailing space is
      one piece of it, starting at `p`. */
  lemma FencesCutPiece(s: string) returns (p: nat, c: string)
    requires s == [] || !IsSpace(s[|s| - 1])
    ensures c == StripTrailingFence(StripLeadingFence(s))
    ensures p + |c| <= |s| && s[p..p + |c|] == c
  {
    var a := StripLeadingFence(s);
    p := |s| - |a|;
    assert a == [] || a[|a| - 1] == s[|s| - 1];
    TrailingFencePrefix(a);
    c := StripTrailingFence(a);
    assert s[p..p + |c|] == c by {
      assert s[p..] == a;
    }
  }

  lemma DoubledOpener(b: string)
    requires b != [] && !IsSpace(b[0])
    ensures StripLeadingFence("```\n```\n" + b) == "```\n" + b
  {
    var s := "```\n```\n" + b;
    assert s[3] == '\n' && s[4] == '`';
    LeadingFenceIs(s, 3, 4);
    assert s[4..] == "```\n" + b;
  }

  lemma BareOpener(b: string)
    requires b != [] && !IsSpace(b[0])
    ensures StripLeadingFence("```\n" + b) == b
  {
    var v := "```\n" + b;
    assert v[3] == '\n' && v[4] == b[0];
    LeadingFenceIs(v, 3, 4);
    assert v[4..] == b;
  }

  lemma BareOpenedShape(b: string)
    requires Trimmed(b) && b != [] && !EndsWith(b, Fence)
    ensures Trimmed("```\n" + b) && !EndsWith("```\n" + b, Fence)
  {
    var v := "```\n" + b;
    assert v[0] == '`' && v[|v| - 1] == b[|b| - 1];
    if |b| < 3 {
      assert v[|v| - |b| - 1] == '\n';
      assert v[|v| - 3..][2 - |b|] == '\n';
    } else {
      assert v[|v| - 3..] == b[|b| - 3..];
    }
  }

  /** An opening fence written twice loses only its first copy, so a second pass
      changes the result again: the clean-up is not idempotent. */
  lemma DoubledFence(b: string)
    requires Trimmed(b) && b != []
    requires !EndsWith(b, Fence)
    ensures ExtractJson("```\n```\n" + b) == "```\n" + b
    ensures ExtractJson(ExtractJson("```\n```\n" + b)) == b
    ensures ExtractJson(ExtractJson("```\n```\n" + b)) != ExtractJson("```\n```\n" + b)
  {
    var s := "```\n```\n" + b;
    var v := "```\n" + b;
    assert s[0] == '`' && s[|s| - 1] == b[|b| - 1];
    StripTrimmed(s);
    DoubledOpener(b);
    BareOpenedShape(b);
    NoFenceBeforeNewline(v);
    StripTrimmed(v);
    ExtractSteps(s, s, v, v);
    BareOpener(b);
    NoFenceBeforeNewline(b);
    StripTrimmed(b);
    ExtractSteps(v, v, b, b);
    assert |v| > |b|;
  }

  /** `parse_jd_with_gemini`: one Gemini call with the text after a fixed label, the
      reply cleaned up and validated once as a job description with a difficulty;
      every failure is a 500 naming job-description parsing. */
  function ParseJdWithGemini(svc: Services, jdText: string): (r: Result<ParsedJobDescription, Exception>)
    ensures r.Err? ==>
              r.error.HTTPException? && r.error.status == 500
              && StartsWith(r.error.detail, "Gemini job description parsing failed: ")
  {
    var prefix := "Gemini job description parsing failed: ";
    match svc.generate(JdParsing, "Job Description Text: " + jdText)
    case Failed(m) => Err(HTTPException(500, prefix + m))
    case Answered(text) =>
      match ValidateText(svc, ExtractJson(text), ValidateParsedJobDescription)
      case Ok(jd) => Ok(jd)
      case Err(e) => Err(HTTPException(500, prefix + e))
  }

  /** `parse_resume_with_gemini`: the same pipeline for a resume document. */
  function ParseResumeWithGemini(svc: Services, resumeText: string): (r: Result<ResumeDocument, Exception>)
    ensures r.Err? ==>
              r.error.HTTPException? && r.error.status == 500
              && StartsWith(r.error.detail, "Gemini parsing failed: ")
  {
    var prefix := "Gemini parsing failed: ";
    match svc.generate(ResumeParsing, "Resume Text: " + resumeText)
    case Failed(m) => Err(HTTPException(500, prefix + m))
    case Answered(text) =>
      match ValidateText(svc, ExtractJson(text), ValidateResumeDocument)
      case Ok(d) => Ok(d)
      case Err(e) => Err(HTTPException(500, prefix + e))
  }

  /** The job-description parse succeeds exactly when Gemini answers and the
      cleaned-up answer is the JSON of a job description with a difficulty; the
      answer is validated once, as it is. */
  lemma ParseJdOutcome(svc: Services, jdText: string)
    ensures ParseJdWithGemini(svc, jdText).Ok? <==>
              svc.generate(JdParsing, "Job Description Text: " + jdText).Answered?
              && ValidateText(svc, ExtractJson(svc.generate(JdParsing, "Job Description Text: " + jdText).text),
                              ValidateParsedJobDescription).Ok?
    ensures ParseJdWithGemini(svc, jdText).Ok? ==>
              ParseJdWithGemini(svc, jdText).value
              == ValidateText(svc, ExtractJson(svc.generate(JdParsing, "Job Description Text: " + jdText).text),
                              ValidateParsedJobDescription).value
  {
  }

  /** The resume parse succeeds exactly when Gemini answers and the cleaned-up
      answer is the JSON of a resume document. */
  lemma ParseResumeOutcome(svc: Services, resumeText: string)
    ensures ParseResumeWithGemini(svc, resumeText).Ok? <==>
              svc.generate(ResumeParsing, "Resume Text: " + resumeText).Answered?
              && ValidateText(svc, ExtractJson(svc.generate(ResumeParsing, "Resume Text: " + resumeText).text),
                              ValidateResumeDocument).Ok?
    ensures ParseResumeWithGemini(svc, resumeText).Ok? ==>
              ParseResumeWithGemini(svc, resumeText).value
              == ValidateText(svc, ExtractJson(svc.generate(ResumeParsing, "Resume Text: " + resumeText).text),
                              ValidateResumeDocument).value
  {
  }

  /** When Gemini answers with the fenced JSON text of a job description, that job
      description is what the parser returns. */
  lemma ParseJdOfFencedReply(svc: Services, jdText: string, body: string, p: ParsedJobDescription)
    requires svc.generate(JdParsing, "Job Description Text: " + jdText) == Answered("```json\n" + body + "\n```")
    requires Trimmed(body)
    requires svc.parseJson(body) == Some(DumpParsedJobDescription(p))
    ensures ParseJdWithGemini(svc, jdText) == Ok(p)
  {
    JsonFencedBody(body);
    ParsedJobDescriptionRoundTrip(p);
  }

  /** When Gemini answers with the fenced JSON text of a resume document, that
      document is what the parser returns. */
  lemma ParseResumeOfFencedReply(svc: Services, resumeText: string, body: string, d: ResumeDocument)
    requires svc.generate(ResumeParsing, "Resume Text: " + resumeText) == Answered("```json\n" + body + "\n```")
    requires Trimmed(body)
    requires svc.parseJson(body) == Some(DumpResumeDocument(d))
    ensures ParseResumeWithGemini(svc, resumeText) == Ok(d)
  {
    JsonFencedBody(body);
    ResumeDocumentRoundTrip(d);
  }
}
