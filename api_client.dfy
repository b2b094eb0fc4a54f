/** The vision-model client: pulling a JSON object out of a free-form reply
    (`extract_json`) and the bounded retry loop around the chat call
    (`APIClient.label_image`). The chat service and the JSON decoder are
    parameters: the first is the sequence of outcomes of successive calls,
    the second a function from text to a decoded value or an error message. */
module ApiClient {
  import opened Strings
  import opened LabelModel

  /** A decoded JSON value, as far as the pipeline looks at it: an object
      (its keys and the labels read from it) or any other value, of which
      only Python truthiness matters. */
  datatype JsonValue = Object(keys: set<string>, labels: Labels) | Other(truthy: bool)

  /** `bool(value)`: an object is truthy when it has a key. */
  predicate JsonTruthy(v: JsonValue)
  {
    match v
    case Object(keys, _) => keys != {}
    case Other(t) => t
  }

  /** `{}` */
  const EmptyObject: JsonValue := Object({}, NoLabels)

  /** What `json.loads` makes of a text. */
  datatype DecodeResult = Decoded(value: JsonValue) | DecodeError(message: string)

  /** One call of `chat`: an exception with its message, or the reply text. */
  datatype ChatOutcome = Failed(message: string) | Replied(content: string)

  /** The outside world of the client: the outcome of the n-th chat call,
      and the decoder. */
  datatype Service = Service(chat: nat -> ChatOutcome, decode: string -> DecodeResult)

  // ---------------------------------------------------------------------
  // extract_json

  /** Some `{` before a later `}`. */
  predicate HasBracePair(s: string)
  {
    exists i, j :: 0 <= i < j < |s| && s[i] == '{' && s[j] == '}'
  }

  /** Three backticks at `i`: the text from `i` on starts with "```". */
  predicate TicksAt(s: string, i: nat)
  {
    i + 3 <= |s| && s[i] == '`' && s[i + 1] == '`' && s[i + 2] == '`'
  }

  /** The text from `i` on starts with "json". */
  predicate JsonTagAt(s: string, i: nat)
  {
    i + 4 <= |s| && s[i] == 'j' && s[i + 1] == 's' && s[i + 2] == 'o' && s[i + 3] == 'n'
  }

  /** Where `(?:json)?\s*` leaves off after a fence opening at `p`. */
  function FenceBodyStart(s: string, p: nat): (q: nat)
    requires p + 3 <= |s|
    ensures p + 3 <= q <= |s|
  {
    var a := if JsonTagAt(s, p + 3) then p + 7 else p + 3;
    SkipSpaces(s, a)
  }

  /** A `}` at `e` followed by `\s*` and a closing fence. */
  predicate ClosesFence(s: string, e: nat)
    requires e < |s|
  {
    s[e] == '}' && TicksAt(s, SkipSpaces(s, e + 1))
  }

  /** The lazy `.*?\}`: the first `e` at or after `e0` that closes the fence. */
  function FirstClose(s: string, e0: nat): (r: Option<nat>)
    requires e0 <= |s|
    ensures r.Some? ==> e0 <= r.value < |s| && ClosesFence(s, r.value)
    decreases |s| - e0
  {
    if e0 == |s| then None
    else if ClosesFence(s, e0) then Some(e0)
    else FirstClose(s, e0 + 1)
  }

  /** The close found is the first one: none before it, none at all when
      nothing is found. */
  lemma {:induction false} FirstCloseLeast(s: string, e0: nat)
    requires e0 <= |s|
    ensures FirstClose(s, e0).Some? ==> forall e :: e0 <= e < FirstClose(s, e0).value ==> !ClosesFence(s, e)
    ensures FirstClose(s, e0).None? ==> forall e :: e0 <= e < |s| ==> !ClosesFence(s, e)
    decreases |s| - e0
  {
    if e0 < |s| && !ClosesFence(s, e0) {
      FirstCloseLeast(s, e0 + 1);
    }
  }

  /** The span of the group `(\{.*?\})` of a match of the fenced pattern
      that starts at `p`: the positions of its `{` and of its `}`. */
  function FenceAt(s: string, p: nat): (r: Option<(nat, nat)>)
    requires p <= |s|
    ensures r.Some? ==> p < r.value.0 < r.value.1 < |s| && s[r.value.0] == '{' && s[r.value.1] == '}'
  {
    if !TicksAt(s, p) then None
    else
      var q := FenceBodyStart(s, p);
      if q == |s| || s[q] != '{' then None
      else
        var e := FirstClose(s, q + 1);
        if e.None? then None else Some((q, e.value))
  }

  /** The least `k` in `p..n` that satisfies `ok`, if there is one. */
  function Leftmost(ok: nat -> bool, p: nat, n: nat): (r: Option<nat>)
    requires p <= n
    ensures r.Some? ==> p <= r.value <= n && ok(r.value)
    decreases n - p
  {
    if ok(p) then Some(p)
    else if p == n then None
    else Leftmost(ok, p + 1, n)
  }

  /** No `k` before the one found satisfies `ok`, and none at all when
      nothing is found. */
  lemma {:induction false} LeftmostLeast(ok: nat -> bool, p: nat, n: nat)
    requires p <= n
    ensures Leftmost(ok, p, n).Some? ==> forall k :: p <= k < Leftmost(ok, p, n).value ==> !ok(k)
    ensures Leftmost(ok, p, n).None? ==> forall k :: p <= k <= n ==> !ok(k)
    decreases n - p
  {
    if !ok(p) && p < n {
      LeftmostLeast(ok, p + 1, n);
    }
  }

  /** A match of the fenced pattern starts at `k`. */
  predicate FenceStarts(s: string, k: nat)
  {
    k <= |s| && FenceAt(s, k).Some?
  }

  /** `re.search` for the fenced pattern: the leftmost start, from `p` on,
      whose match succeeds. */
  function SearchFence(s: string, p: nat): (r: Option<nat>)
    requires p <= |s|
    ensures r.Some? ==> p <= r.value <= |s| && FenceAt(s, r.value).Some?
  {
    Leftmost((k: nat) => FenceStarts(s, k), p, |s|)
  }

  /** The start found is the leftmost one: no match starts before it, and
      none at all when nothing is found. */
  lemma SearchFenceLeftmost(s: string, p: nat)
    requires p <= |s|
    ensures SearchFence(s, p).Some? ==> forall k :: p <= k < SearchFence(s, p).value ==> FenceAt(s, k).None?
    ensures SearchFence(s, p).None? ==> forall k :: p <= k <= |s| ==> FenceAt(s, k).None?
  {
    var ok := (k: nat) => FenceStarts(s, k);
    LeftmostLeast(ok, p, |s|);
    var bound := if SearchFence(s, p).Some? then SearchFence(s, p).value else |s| + 1;
    forall k: nat | p <= k < bound ensures FenceAt(s, k).None? {
      assert !ok(k);
    }
  }

  /** The object inside the leftmost fenced block. */
  function FencedBlock(s: string): (r: Option<string>)
    ensures r.Some? ==> |r.value| >= 2 && r.value[0] == '{' && r.value[|r.value| - 1] == '}'
  {
    var k := SearchFence(s, 0);
    if k.None? then None
    else
      var (q, e) := FenceAt(s, k.value).value;
      assert s[q..e + 1][0] == s[q];
      Some(s[q..e + 1])
  }

  /** `f` is the first `{` of `s` and `l` the last `}`, and `f` comes first. */
  predicate OutermostBraces(s: string, f: int, l: int)
  {
    0 <= f < l < |s| && s[f] == '{' && s[l] == '}' && '{' !in s[..f] && '}' !in s[l + 1..]
  }

  /** `re.search(r'\{.*\}', s, re.DOTALL)`: greedy, from the first `{` to the last `}`. */
  function BraceSpan(s: string): (r: Option<string>)
    ensures r.Some? ==> |r.value| >= 2 && r.value[0] == '{' && r.value[|r.value| - 1] == '}'
    ensures forall f, l :: OutermostBraces(s, f, l) ==> r == Some(s[f..l + 1])
  {
    OutermostBracesUnique(s);
    var f := FirstIndexOf(s, '{');
    var l := LastIndexOf(s, '}');
    if f.Some? && l.Some? && f.value < l.value then
      assert s[f.value..l.value + 1][0] == s[f.value];
      Some(s[f.value..l.value + 1])
    else None
  }

  /** The first `{` and the last `}` are where `FirstIndexOf` and `LastIndexOf` find them. */
  lemma OutermostBracesUnique(s: string)
    ensures forall f, l :: OutermostBraces(s, f, l) ==>
      FirstIndexOf(s, '{') == Some(f) && LastIndexOf(s, '}') == Some(l)
  {
    forall f, l | OutermostBraces(s, f, l)
      ensures FirstIndexOf(s, '{') == Some(f) && LastIndexOf(s, '}') == Some(l)
    {
      var fi := FirstIndexOf(s, '{');
      var li := LastIndexOf(s, '}');
      assert s[f] in s && s[l] in s;
      NoneBefore(s, '{', f);
      NoneBefore(s, '{', fi.value);
      NoneAfter(s, '}', l);
      NoneAfter(s, '}', li.value);
    }
  }

  /** `extract_json`: the whole text if it decodes, else the fenced object,
      else the outermost brace span, else nothing. */
  function ExtractJson(decode: string -> DecodeResult, text: string): (r: Option<string>)
    ensures decode(text).Decoded? ==> r == Some(text)
    ensures r.Some? && r.value != text ==> |r.value| >= 2 && r.value[0] == '{' && r.value[|r.value| - 1] == '}'
    ensures decode(text).DecodeError? && FencedBlock(text).Some? ==> r == FencedBlock(text)
    ensures decode(text).DecodeError? && FencedBlock(text).None? ==> r == BraceSpan(text)
  {
    if decode(text).Decoded? then Some(text)
    else if FencedBlock(text).Some? then FencedBlock(text)
    else BraceSpan(text)
  }

  lemma NoneBefore(s: string, c: char, v: nat)
    requires v <= |s| && c !in s[..v]
    ensures forall i :: 0 <= i < v ==> s[i] != c
  {
    forall i | 0 <= i < v ensures s[i] != c {
      assert s[..v][i] == s[i];
    }
  }

  lemma NoneAfter(s: string, c: char, v: nat)
    requires v < |s| && c !in s[v + 1..]
    ensures forall j :: v < j < |s| ==> s[j] != c
  {
    forall j | v < j < |s| ensures s[j] != c {
      assert s[v + 1..][j - v - 1] == s[j];
    }
  }

  /** The greedy span exists exactly when some `{` comes before some `}`. */
  lemma BraceSpanIff(s: string)
    ensures BraceSpan(s).Some? <==> HasBracePair(s)
  {
    var f := FirstIndexOf(s, '{');
    var l := LastIndexOf(s, '}');
    if HasBracePair(s) {
      var i, j :| 0 <= i < j < |s| && s[i] == '{' && s[j] == '}';
      assert f.Some? by { assert s[i] in s; }
      assert l.Some? by { assert s[j] in s; }
      NoneBefore(s, '{', f.value);
      NoneAfter(s, '}', l.value);
      assert f.value <= i && j <= l.value;
    }
    if BraceSpan(s).Some? {
      assert 0 <= f.value < l.value < |s| && s[f.value] == '{' && s[l.value] == '}';
    }
  }

  /** A fenced object is itself a `{` before a later `}` of the text. */
  lemma FencedBlockHasBraces(s: string)
    requires FencedBlock(s).Some?
    ensures HasBracePair(s)
  {
    var (q, e) := FenceAt(s, SearchFence(s, 0).value).value;
    assert s[q] == '{' && s[e] == '}';
  }

  /** `extract_json` gives nothing exactly when the text does not decode and
      has no `{` before a `}`. */
  lemma ExtractJsonNone(decode: string -> DecodeResult, text: string)
    ensures ExtractJson(decode, text).None? <==> decode(text).DecodeError? && !HasBracePair(text)
  {
    BraceSpanIff(text);
    if FencedBlock(text).Some? {
      FencedBlockHasBraces(text);
    }
  }

  /** The match starting at `p` is the one `re.search` reports when the
      fence opens there and no earlier match succeeds. */
  lemma SearchFenceFinds(s: string, p: nat)
    requires p <= |s| && FenceAt(s, p).Some?
    ensures SearchFence(s, p) == Some(p)
  {
  }

  lemma FenceAtExample()
    ensures FenceAt("```json {} ```", 0) == Some((8, 9))
    ensures "```json {} ```"[8..10] == "{}"
  {
    var s := "```json {} ```";
    assert s[0] == '`' && s[1] == '`' && s[2] == '`' && s[3] == 'j' && s[4] == 's' && s[5] == 'o' && s[6] == 'n';
    assert s[7] == ' ' && s[8] == '{' && s[9] == '}' && s[10] == ' ' && s[11] == '`' && s[12] == '`' && s[13] == '`';
    assert SkipSpaces(s, 8) == 8;
    assert SkipSpaces(s, 7) == 8;
    assert FenceBodyStart(s, 0) == 8;
    assert SkipSpaces(s, 11) == 11;
    assert SkipSpaces(s, 10) == 11;
    assert ClosesFence(s, 9);
    assert FirstClose(s, 9) == Some(9);
    assert s[8..10] == "{}";
  }

  /** A reply that does not decode as a whole but opens with a fenced
      object yields that object. */
  lemma LeadingFence(decode: string -> DecodeResult, s: string)
    requires decode(s).DecodeError? && FenceAt(s, 0).Some?
    ensures ExtractJson(decode, s) == Some(s[FenceAt(s, 0).value.0..FenceAt(s, 0).value.1 + 1])
  {
    SearchFenceFinds(s, 0);
  }

  /** A reply wrapped in a fence tagged `json` yields the object inside. */
  lemma FencedExample(decode: string -> DecodeResult)
    requires decode("```json {} ```").DecodeError?
    ensures ExtractJson(decode, "```json {} ```") == Some("{}")
  {
    var s := "```json {} ```";
    FenceAtExample();
    LeadingFence(decode, s);
  }

  // ---------------------------------------------------------------------
  // label_image

  const MaxAttempts: nat := 3

  const NoJsonError := "JSON parsing failed: unable to extract JSON from response"

  /** What `label_image` returns. */
  datatype LabelResult = LabelResult(labels: JsonValue, rawResponse: string, error: Option<string>)

  /** One attempt: a decoded value with the reply it came from, or the
      message of the failure with the reply, when there was one. */
  datatype Attempt = Success(value: JsonValue, content: string) | Failure(message: string, reply: Option<string>)

  /** The attempt made by chat call number `n`. */
  function TryOnce(svc: Service, n: nat): (a: Attempt)
    ensures svc.chat(n).Failed? ==> a == Failure(svc.chat(n).message, None)
    ensures svc.chat(n).Replied? && a.Success? ==> a.content == Trim(svc.chat(n).content)
    ensures svc.chat(n).Replied? && a.Failure? ==> a.reply == Some(Trim(svc.chat(n).content))
    ensures svc.chat(n).Replied? ==>
      var js := ExtractJson(svc.decode, Trim(svc.chat(n).content));
      var found := js.Some? && js.value != "";
      (a.Success? <==> found && svc.decode(js.value).Decoded?)
      && (a.Success? ==> a.value == svc.decode(js.value).value)
      && (!found ==> a.Failure? && a.message == NoJsonError)
      && (found && svc.decode(js.value).DecodeError? ==>
            a.Failure? && a.message == "JSON parsing failed: " + svc.decode(js.value).message)
  {
    match svc.chat(n)
    case Failed(m) => Failure(m, None)
    case Replied(c) =>
      var content := Trim(c);
      var js := ExtractJson(svc.decode, content);
      if js.Some? && js.value != "" then
        match svc.decode(js.value)
        case Decoded(v) => Success(v, content)
        case DecodeError(m) => Failure("JSON parsing failed: " + m, Some(content))
      else Failure(NoJsonError, Some(content))
  }

  /** The message `label_image` reports once every attempt failed. */
  function FinalError(lastError: Option<string>): (e: string)
    ensures e != ""
    ensures lastError.Some? && lastError.value != "" ==> e == lastError.value
    ensures lastError.None? || lastError.value == "" ==> e == "Unknown error"
  {
    if lastError.None? || lastError.value == "" then "Unknown error" else lastError.value
  }

  /** The attempts the calls from number 0 on would make. */
  function Attempts(svc: Service): nat -> Attempt
  {
    (n: nat) => TryOnce(svc, n)
  }

  /** Attempts `attempt` to `MaxAttempts`, the next one being `tries(n)`, with
      the error and the reply kept from the attempts before; the result and
      the number of the next unused chat call. */
  function Retry(tries: nat -> Attempt, n: nat, attempt: nat, lastError: Option<string>, lastContent: string): (LabelResult, nat)
    decreases MaxAttempts + 1 - attempt
  {
    if attempt > MaxAttempts then
      (LabelResult(EmptyObject, lastContent, Some(FinalError(lastError))), n)
    else
      match tries(n)
      case Success(v, content) => (LabelResult(v, content, None), n + 1)
      case Failure(m, reply) =>
        Retry(tries, n + 1, attempt + 1, Some(m), if reply.Some? then reply.value else lastContent)
  }

  /** The reply of the latest of the three attempts from `n` on that got one, or "". */
  function LatestReply(tries: nat -> Attempt, n: nat): string
    requires forall k :: n <= k < n + MaxAttempts ==> tries(k).Failure?
  {
    if tries(n + 2).reply.Some? then tries(n + 2).reply.value
    else if tries(n + 1).reply.Some? then tries(n + 1).reply.value
    else if tries(n).reply.Some? then tries(n).reply.value
    else ""
  }

  predicate SomeAttemptSucceeds(tries: nat -> Attempt, n: nat)
  {
    exists k :: n <= k < n + MaxAttempts && tries(k).Success?
  }

  /** A run makes at least one and at most the remaining number of calls. */
  lemma {:induction false} RetryCalls(tries: nat -> Attempt, n: nat, attempt: nat, lastError: Option<string>, lastContent: string)
    requires 1 <= attempt <= MaxAttempts + 1
    ensures var next := Retry(tries, n, attempt, lastError, lastContent).1;
      n <= next <= n + MaxAttempts + 1 - attempt && (attempt <= MaxAttempts ==> n < next)
    decreases MaxAttempts + 1 - attempt
  {
    if attempt <= MaxAttempts && tries(n).Failure? {
      var a := tries(n);
      RetryCalls(tries, n + 1, attempt + 1, Some(a.message), if a.reply.Some? then a.reply.value else lastContent);
    }
  }

  /** A run stops at its first successful attempt and returns what it decoded;
      a run that fails has used up every attempt, each of them failing. */
  lemma {:induction false} RetryStopsAtSuccess(tries: nat -> Attempt, n: nat, attempt: nat, lastError: Option<string>, lastContent: string)
    requires 1 <= attempt <= MaxAttempts + 1
    ensures var (r, next) := Retry(tries, n, attempt, lastError, lastContent);
      r.error.None? ==> (n < next && tries(next - 1) == Success(r.labels, r.rawResponse)
        && forall k :: n <= k < next - 1 ==> tries(k).Failure?)
    ensures var (r, next) := Retry(tries, n, attempt, lastError, lastContent);
      r.error.Some? ==> (next == n + MaxAttempts + 1 - attempt && forall k :: n <= k < next ==> tries(k).Failure?)
    decreases MaxAttempts + 1 - attempt
  {
    if attempt <= MaxAttempts && tries(n).Failure? {
      var a := tries(n);
      RetryStopsAtSuccess(tries, n + 1, attempt + 1, Some(a.message), if a.reply.Some? then a.reply.value else lastContent);
    }
  }

  /** A failed run returns the empty object and a message that is never empty. */
  lemma {:induction false} RetryFailureShape(tries: nat -> Attempt, n: nat, attempt: nat, lastError: Option<string>, lastContent: string)
    ensures var r := Retry(tries, n, attempt, lastError, lastContent).0;
      r.error.Some? ==> r.labels == EmptyObject && r.error.value != ""
    decreases MaxAttempts + 1 - attempt
  {
    if attempt <= MaxAttempts && tries(n).Failure? {
      var a := tries(n);
      RetryFailureShape(tries, n + 1, attempt + 1, Some(a.message), if a.reply.Some? then a.reply.value else lastContent);
    }
  }

  /** A whole run succeeds exactly when one of its three attempts would. */
  lemma RetrySucceedsIff(tries: nat -> Attempt, n: nat)
    ensures Retry(tries, n, 1, None, "").0.error.None? <==> SomeAttemptSucceeds(tries, n)
  {
    RetryStopsAtSuccess(tries, n, 1, None, "");
    var (r, next) := Retry(tries, n, 1, None, "");
    RetryCalls(tries, n, 1, None, "");
    if r.error.None? {
      assert tries(next - 1).Success?;
    }
  }

  /** After three failures: the empty object, the latest reply, and the last
      attempt's message, or "Unknown error" when that is empty. */
  lemma RetryExhausted(tries: nat -> Attempt, n: nat)
    requires forall k :: n <= k < n + MaxAttempts ==> tries(k).Failure?
    ensures var (r, next) := Retry(tries, n, 1, None, "");
      next == n + 3 && r.labels == EmptyObject && r.rawResponse == LatestReply(tries, n)
      && r.error == Some(FinalError(Some(tries(n + 2).message)))
  {
    assert tries(n).Failure? && tries(n + 1).Failure? && tries(n + 2).Failure?;
  }

  /** `APIClient.label_image`: up to three attempts, each a chat call from
      chat call `start` on; returns the result and the next unused call. */
  method LabelImage(svc: Service, start: nat) returns (r: LabelResult, next: nat)
    ensures (r, next) == Retry(Attempts(svc), start, 1, None, "")
    ensures start < next <= start + MaxAttempts
    ensures r.error.Some? ==> r.error.value != "" && r.labels == EmptyObject
  {
    r, next := RetryLoop(Attempts(svc), start);
    RetryFailureShape(Attempts(svc), start, 1, None, "");
  }

  /** The loop of `label_image`, the attempt of each chat call being
      `tries(n)`: stop at the first success, otherwise keep the attempt's
      message and, when it got one, its reply. */
  method RetryLoop(tries: nat -> Attempt, start: nat) returns (r: LabelResult, next: nat)
    ensures (r, next) == Retry(tries, start, 1, None, "")
    ensures start < next <= start + MaxAttempts
  {
    var lastError: Option<string> := None;
    var lastContent := "";
    var attempt := 1;
    next := start;
    while attempt <= MaxAttempts
      invariant 1 <= attempt <= MaxAttempts + 1
      invariant next == start + attempt - 1
      invariant Retry(tries, next, attempt, lastError, lastContent) == Retry(tries, start, 1, None, "")
      decreases MaxAttempts + 1 - attempt
    {
      var outcome := tries(next);
      next := next + 1;
      match outcome {
        case Success(v, content) =>
          r := LabelResult(v, content, None);
          RetryCalls(tries, start, 1, None, "");
          return;
        case Failure(m, reply) =>
          lastError := Some(m);
          if reply.Some? {
            lastContent := reply.value;
          }
      }
      attempt := attempt + 1;
    }
    r := LabelResult(EmptyObject, lastContent, Some(FinalError(lastError)));
    RetryCalls(tries, start, 1, None, "");
  }
}
