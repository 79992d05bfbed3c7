/**
  Recovery of the JSON value in a model's raw reply (src/lib/extractJson.ts).
  The reply is trimmed and parsed as it is; when that fails, code fences are
  stripped and the text from the first `{` to the last `}` is parsed instead.
  `JSON.parse` is not modelled: it is the parameter `parse`, which either
  yields a value or fails with the message of the `SyntaxError` it throws.
 */
module ExtractJson {
  import opened Wrappers
  import opened JsonValue
  import opened Text

  /** `JSON.parse`: a value, or the message of the error it throws. */
  type Parser = string -> Result<Json, string>

  /** The errors `extractJsonObject` throws. */
  datatype ExtractError =
    | EmptyOutput
    | NoObjectFound
    | ParseError(message: string)

  /** The `message` of each thrown error. */
  function Message(e: ExtractError): string {
    match e
    case EmptyOutput => "Model returned empty output"
    case NoObjectFound => "Could not locate a JSON object in model output"
    case ParseError(m) => m
  }

  // ---------------------------------------------------------------------
  // Fences

  /** Three backticks start at position `i`. */
  predicate FenceAt(s: string, i: int) {
    0 <= i && i + 3 <= |s| && s[i] == '`' && s[i + 1] == '`' && s[i + 2] == '`'
  }

  predicate NoFence(s: string) {
    forall i :: 0 <= i < |s| ==> !FenceAt(s, i)
  }

  /** The four letters after a fence spell `json` in any letter case. */
  predicate IsJsonTag(s: string) {
    |s| == 4 && Lower(s) == "json"
  }

  /** A match of /```json/i starts at position `i`. */
  predicate JsonFenceAt(s: string, i: int) {
    0 <= i && i + 7 <= |s| && FenceAt(s, i) && IsJsonTag(s[i + 3..i + 7])
  }

  /** `.replace(/```json/gi, "```")`: every tagged opening fence loses its tag. */
  function DropJsonTags(s: string): (r: string)
    ensures |r| <= |s|
  {
    if |s| >= 7 && FenceAt(s, 0) && IsJsonTag(s[3..7]) then "```" + DropJsonTags(s[7..])
    else if s == [] then []
    else [s[0]] + DropJsonTags(s[1..])
  }

  /** `.replace(/```/g, "")`: every fence is deleted, scanning left to right. */
  function DropFences(s: string): (r: string)
    ensures |r| <= |s|
  {
    if FenceAt(s, 0) then DropFences(s[3..])
    else if s == [] then []
    else [s[0]] + DropFences(s[1..])
  }

  /** A backtick at the head of the output comes from a backtick at the head of the input, and so does a second one. */
  lemma {:induction false} DropFencesHead(s: string)
    ensures |DropFences(s)| >= 1 && DropFences(s)[0] == '`' ==> |s| >= 1 && s[0] == '`'
    ensures |DropFences(s)| >= 2 && DropFences(s)[0] == '`' && DropFences(s)[1] == '`'
            ==> |s| >= 2 && s[0] == '`' && s[1] == '`'
  {
    if !FenceAt(s, 0) && s != [] {
      DropFencesHead(s[1..]);
    }
  }

  /** Deleting the fences cannot join backticks into a new fence: none is left. */
  lemma {:induction false} DropFencesNoFence(s: string)
    ensures NoFence(DropFences(s))
  {
    if FenceAt(s, 0) {
      DropFencesNoFence(s[3..]);
    } else if s != [] {
      var t := DropFences(s[1..]);
      DropFencesNoFence(s[1..]);
      DropFencesHead(s[1..]);
      var r := [s[0]] + t;
      forall i | 0 <= i < |r| ensures !FenceAt(r, i) {
        if i > 0 && i + 3 <= |r| {
          assert !FenceAt(t, i - 1);
        }
      }
    }
  }

  lemma NoFenceSlice(s: string, a: int, b: int)
    requires NoFence(s) && 0 <= a <= b <= |s|
    ensures NoFence(s[a..b])
  {
    forall i | 0 <= i < b - a ensures !FenceAt(s[a..b], i) {
      if i + 3 <= b - a {
        assert !FenceAt(s, a + i);
      }
    }
  }

  lemma NoFenceNotContains(s: string)
    requires NoFence(s)
    ensures !Contains(s, "```")
  {
    forall i | 0 <= i ensures !OccursAt(s, "```", i) {
      if i + 3 <= |s| {
        assert s[i..i + 3][0] == s[i] && s[i..i + 3][1] == s[i + 1] && s[i..i + 3][2] == s[i + 2];
        assert !FenceAt(s, i);
      }
    }
  }

  /** The fallback text: tags dropped, fences deleted, trimmed. It holds no "```", so no "```json" either. */
  function Unfence(trimmed: string): (r: string)
    ensures !Contains(r, "```")
  {
    var d := DropFences(DropJsonTags(trimmed));
    DropFencesNoFence(DropJsonTags(trimmed));
    TrimNoFence(d);
    NoFenceNotContains(Trim(d));
    Trim(d)
  }

  /** Trimming text with no fence leaves text with no fence. */
  lemma TrimNoFence(d: string)
    requires NoFence(d)
    ensures NoFence(Trim(d))
  {
    var t := TrimStart(d);
    NoFenceSlice(d, |d| - |t|, |d|);
    assert t == d[|d| - |t|..|d|];
    var r := TrimEnd(t);
    NoFenceSlice(t, 0, |r|);
    assert r == t[0..|r|];
  }

  // ---------------------------------------------------------------------
  // The candidate slice

  /** Some `{` stands strictly before some `}`. */
  predicate HasBracePair(u: string) {
    exists i, j :: 0 <= i < j < |u| && u[i] == '{' && u[j] == '}'
  }

  /**
    `unfenced.slice(first, last + 1)` when `first` (the first `{`) is strictly
    before `last` (the last `}`); `None` where the source throws.
   */
  function Candidate(u: string): (r: Option<string>)
    ensures r.None? <==> !HasBracePair(u)
    ensures r.Some? ==>
      var c := r.value;
      && |c| >= 2 && c[0] == '{' && c[|c| - 1] == '}'
      && exists i :: OccursAt(u, c, i) && '{' !in u[..i] && '}' !in u[i + |c|..]
  {
    var first := IndexOf(u, '{');
    var last := LastIndexOf(u, '}');
    if first == -1 || last == -1 || last <= first then
      assert !HasBracePair(u) by {
        forall i, j | 0 <= i < j < |u| ensures !(u[i] == '{' && u[j] == '}') {
        }
      }
      None
    else
      var c := u[first..last + 1];
      assert OccursAt(u, c, first);
      assert u[first + |c|..] == u[last + 1..];
      Some(c)
  }

  // ---------------------------------------------------------------------
  // extractJsonObject

  /** `JSON.parse(candidate)`, its error passed on as the thrown error. */
  function ParseCandidate(parse: Parser, c: string): Result<Json, ExtractError> {
    match parse(c)
    case Success(v) => Success(v)
    case Failure(m) => Failure(ParseError(m))
  }

  /** `extractJsonObject(text)`. */
  function Extract(parse: Parser, text: string): (r: Result<Json, ExtractError>)
    // Blank input fails before any parse is attempted.
    ensures r == Failure(EmptyOutput) <==> AllWhitespace(text)
    // A reply that parses after trimming is returned as it is, object or not.
    ensures !AllWhitespace(text) && parse(Trim(text)).Success? ==> r == Success(parse(Trim(text)).value)
    // The "no JSON object" error is raised exactly when the unfenced text has no `{` before a `}`.
    ensures r == Failure(NoObjectFound) <==>
      !AllWhitespace(text) && parse(Trim(text)).Failure? && !HasBracePair(Unfence(Trim(text)))
    // Otherwise the fallback's own parse decides, and its failure is passed on.
    ensures !AllWhitespace(text) && parse(Trim(text)).Failure? && HasBracePair(Unfence(Trim(text))) ==>
      r == ParseCandidate(parse, Candidate(Unfence(Trim(text))).value)
  {
    var trimmed := Trim(text);
    TrimEmptyIff(text);
    if trimmed == [] then Failure(EmptyOutput)
    else
      match parse(trimmed)
      case Success(v) => Success(v)
      case Failure(_) =>
        match Candidate(Unfence(trimmed))
        case None => Failure(NoObjectFound)
        case Some(c) => ParseCandidate(parse, c)
  }

  // ---------------------------------------------------------------------
  // Fence tolerance

  lemma {:induction false} DropJsonTagsIdentity(s: string)
    requires forall i :: !JsonFenceAt(s, i)
    ensures DropJsonTags(s) == s
  {
    if s != [] {
      assert !JsonFenceAt(s, 0);
      forall i ensures !JsonFenceAt(s[1..], i) {
        if 0 <= i && i + 7 <= |s| - 1 {
          assert s[1..][i + 3..i + 7] == s[i + 4..i + 8];
          assert !JsonFenceAt(s, i + 1);
        }
      }
      DropJsonTagsIdentity(s[1..]);
    }
  }

  lemma {:induction false} DropFencesIdentity(s: string)
    requires NoFence(s)
    ensures DropFences(s) == s
  {
    if s != [] {
      assert !FenceAt(s, 0);
      NoFenceSlice(s, 1, |s|);
      assert s[1..|s|] == s[1..];
      DropFencesIdentity(s[1..]);
    }
  }

  /** A closing fence after text with no fence of its own and no trailing backtick is deleted and nothing else is. */
  lemma {:induction false} DropClosingFence(m: string)
    requires NoFence(m)
    requires m == [] || m[|m| - 1] != '`'
    ensures DropFences(m + "```") == m
  {
    if m == [] {
      assert FenceAt(m + "```", 0);
      assert (m + "```")[3..] == [];
    } else {
      assert !FenceAt(m + "```", 0) by {
        if |m| >= 3 { assert !FenceAt(m, 0); }
      }
      assert (m + "```")[1..] == m[1..] + "```";
      NoFenceSlice(m, 1, |m|);
      assert m[1..|m|] == m[1..];
      DropClosingFence(m[1..]);
    }
  }

  /** Text with no fence, followed by a closing fence, holds no tagged opening fence. */
  lemma NoJsonFenceBeforeClosing(m: string)
    requires NoFence(m)
    ensures forall i :: !JsonFenceAt(m + "```", i)
  {
    forall i ensures !JsonFenceAt(m + "```", i) {
      if 0 <= i && i + 7 <= |m| + 3 {
        assert !FenceAt(m, i);
      }
    }
  }

  /** A fenced reply: an opening fence, optionally tagged `json` in any case. */
  predicate IsOpeningFence(open: string) {
    open == "```" || (|open| == 7 && FenceAt(open, 0) && IsJsonTag(open[3..]))
  }

  /** Whitespace, an object without fences, whitespace: no fence, and the ends are not backticks. */
  lemma PaddedObjectNoFence(pre: string, obj: string, post: string)
    requires AllWhitespace(pre) && AllWhitespace(post)
    requires |obj| >= 1 && obj[0] == '{' && obj[|obj| - 1] == '}' && NoFence(obj)
    ensures var m := pre + obj + post;
      && NoFence(m) && |m| >= 1
      && m[0] != '`' && LowerChar(m[0]) != 'j'
      && m[|m| - 1] != '`'
  {
    var m := pre + obj + post;
    assert !IsWhitespace('`');
    forall i | 0 <= i < |m| ensures !FenceAt(m, i) {
      if i < |pre| {
        assert m[i] == pre[i];
      } else if i + 2 < |pre| + |obj| {
        assert !FenceAt(obj, i - |pre|);
      } else if i + 2 < |m| {
        assert m[i + 2] == post[i + 2 - |pre| - |obj|];
      }
    }
    assert m[0] == (if pre == [] then '{' else pre[0]);
    assert m[|m| - 1] == (if post == [] then '}' else post[|post| - 1]);
  }

  /** A tagged fence after a plain opening fence is one of the text after it. */
  lemma JsonFenceShift(c: string, i: int)
    requires 0 <= i
    ensures JsonFenceAt("```" + c, i + 3) == JsonFenceAt(c, i)
  {
    var w := "```" + c;
    if i + 7 <= |c| {
      assert w[i + 6..i + 10] == c[i + 3..i + 7];
    }
  }

  /** Only the opening fence of a fenced text can carry a tag, and it loses it. */
  lemma DropJsonTagsWrapped(open: string, m: string)
    requires IsOpeningFence(open)
    requires NoFence(m) && |m| >= 1 && m[0] != '`' && LowerChar(m[0]) != 'j'
    ensures DropJsonTags(open + m + "```") == "```" + m + "```"
  {
    var c := m + "```";
    NoJsonFenceBeforeClosing(m);
    DropJsonTagsIdentity(c);
    assert open + m + "```" == open + c;
    assert "```" + m + "```" == "```" + c;
    if open == "```" {
      NoJsonFenceAfterPlain(m);
      DropJsonTagsIdentity("```" + c);
    } else {
      var w := open + c;
      assert w[3..7] == open[3..];
      assert w[7..] == c;
    }
  }

  /** After a plain opening fence, no tagged fence starts anywhere. */
  lemma NoJsonFenceAfterPlain(m: string)
    requires |m| >= 1 && m[0] != '`' && LowerChar(m[0]) != 'j'
    requires forall i :: !JsonFenceAt(m + "```", i)
    ensures forall i :: !JsonFenceAt("```" + (m + "```"), i)
  {
    var c := m + "```";
    var w := "```" + c;
    forall i ensures !JsonFenceAt(w, i) {
      if i >= 3 {
        JsonFenceShift(c, i - 3);
      } else if i == 0 && 7 <= |w| {
        assert w[3..7][0] == m[0];
      }
    }
  }

  /** The fallback text of a fenced object is the object. */
  lemma UnfenceWrapped(open: string, pre: string, obj: string, post: string)
    requires IsOpeningFence(open)
    requires AllWhitespace(pre) && AllWhitespace(post)
    requires |obj| >= 1 && obj[0] == '{' && obj[|obj| - 1] == '}' && NoFence(obj)
    ensures Unfence(open + pre + obj + post + "```") == obj
  {
    var m := pre + obj + post;
    assert open + pre + obj + post + "```" == open + m + "```";
    PaddedObjectNoFence(pre, obj, post);
    DropJsonTagsWrapped(open, m);
    var c := m + "```";
    var w := "```" + c;
    assert "```" + m + "```" == w;
    assert w[3..] == c;
    assert FenceAt(w, 0);
    DropClosingFence(m);
    TrimPadded(pre, obj, post);
  }

  /** The fallback text of a bare object is the object, and so is its candidate. */
  lemma UnfenceBare(obj: string)
    requires |obj| >= 1 && obj[0] == '{' && obj[|obj| - 1] == '}' && NoFence(obj)
    ensures Unfence(obj) == obj && Candidate(obj) == Some(obj)
  {
    forall i ensures !JsonFenceAt(obj, i) {
      if 0 <= i < |obj| {
        assert !FenceAt(obj, i);
      }
    }
    DropJsonTagsIdentity(obj);
    DropFencesIdentity(obj);
    TrimPadded([], obj, []);
    assert [] + obj + [] == obj;
    assert IndexOf(obj, '{') == 0;
    assert LastIndexOf(obj, '}') == |obj| - 1;
    assert obj[0..|obj|] == obj;
  }

  /** Text that starts and ends with a backtick or a brace is its own trim and is not blank. */
  lemma OwnTrim(t: string)
    requires |t| >= 1 && t[0] in "`{" && t[|t| - 1] in "`}"
    ensures Trim(t) == t && !AllWhitespace(t)
  {
    TrimPadded([], t, []);
    assert [] + t + [] == t;
    assert !IsWhitespace(t[0]);
  }

  /** When the text does not parse as it is and its fallback text is exactly one object, that object is parsed. */
  lemma ExtractAfterFailedParse(parse: Parser, t: string, obj: string)
    requires |t| >= 1 && t[0] in "`{" && t[|t| - 1] in "`}"
    requires parse(t).Failure?
    requires Unfence(t) == obj && Candidate(obj) == Some(obj)
    ensures Extract(parse, t) == ParseCandidate(parse, obj)
  {
    OwnTrim(t);
  }

  lemma ExtractOwnTrim(parse: Parser, obj: string)
    requires |obj| >= 1 && obj[0] == '{' && obj[|obj| - 1] == '}'
    requires parse(obj).Success?
    ensures Extract(parse, obj) == ParseCandidate(parse, obj)
  {
    OwnTrim(obj);
  }

  /**
    Wrapping an object in a code fence, with whitespace around it, does not
    change what `extractJsonObject` returns, provided the object holds no
    fence itself and the wrapped text does not parse as it is (a JSON text
    never starts with a backtick).
   */
  lemma FenceTolerance(parse: Parser, open: string, pre: string, obj: string, post: string)
    requires IsOpeningFence(open)
    requires AllWhitespace(pre) && AllWhitespace(post)
    requires |obj| >= 1 && obj[0] == '{' && obj[|obj| - 1] == '}' && NoFence(obj)
    requires parse(open + pre + obj + post + "```").Failure?
    ensures Extract(parse, open + pre + obj + post + "```") == Extract(parse, obj)
  {
    var w := open + pre + obj + post + "```";
    UnfenceWrapped(open, pre, obj, post);
    UnfenceBare(obj);
    ExtractAfterFailedParse(parse, w, obj);
    if parse(obj).Failure? {
      ExtractAfterFailedParse(parse, obj, obj);
    } else {
      ExtractOwnTrim(parse, obj);
    }
  }
}
