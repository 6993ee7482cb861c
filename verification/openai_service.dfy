/**
 * OpenAIService: the post-reply logic of the three AI operations and the
 * "only compute what is missing" orchestration of processEmail. The chat API
 * is an oracle: each operation receives the reply it would get (or the
 * exception it would raise); `json_decode` and `filter_var(..., FILTER_VALIDATE_URL)`
 * are oracles too. Prompt text is not modelled.
 */
module OpenAIService {
  import opened Wrappers
  import opened PhpText
  import MailStore

  /** What one chat completion call yields: an exception message, or the reply content. */
  datatype Reply = ApiThrew(message: string) | Replied(content: string)

  /** The two keys the unsubscribe detection reads from a decoded JSON reply (each `?? default`). */
  datatype UnsubscribeJson = UnsubscribeJson(hasUnsubscribe: bool, url: Option<string>)

  datatype CategoryResult = CategoryResult(categoryId: Option<int>, error: Option<string>)
  datatype SummaryResult = SummaryResult(summary: Option<string>, error: Option<string>)
  datatype UnsubscribeResult = UnsubscribeResult(available: bool, url: Option<string>, error: Option<string>)

  // ------------------------------------------------------------ content

  const ContentLimit: nat := 4000

  /** prepareEmailContent: `body ?? snippet ?? ''`, cut to 4000 characters plus "..." when longer. */
  function PrepareEmailContent(body: Option<string>, snippet: Option<string>): (c: string)
    ensures |c| <= ContentLimit + 3
    ensures var raw := body.GetOr(snippet.GetOr(""));
      && (|raw| <= ContentLimit ==> c == raw)
      && (|raw| > ContentLimit ==> |c| == ContentLimit + 3 && c[..ContentLimit] == raw[..ContentLimit] && c[ContentLimit..] == "...")
  {
    var raw := body.GetOr(snippet.GetOr(""));
    if |raw| > ContentLimit then raw[..ContentLimit] + "..." else raw
  }

  // ------------------------------------------------------------ categorisation

  predicate IsDigit(c: char) { '0' <= c <= '9' }

  /** The length of the run of decimal digits starting at i. */
  function DigitRunLength(s: string, i: nat): (n: nat)
    requires i <= |s|
    ensures i + n <= |s|
    ensures forall j :: i <= j < i + n ==> IsDigit(s[j])
    ensures i + n == |s| || !IsDigit(s[i + n])
    decreases |s| - i
  {
    if i < |s| && IsDigit(s[i]) then 1 + DigitRunLength(s, i + 1) else 0
  }

  /** The position of the first digit at or after i, or |s|. */
  function FirstDigitFrom(s: string, i: nat): (k: nat)
    requires i <= |s|
    ensures i <= k <= |s|
    ensures forall j :: i <= j < k ==> !IsDigit(s[j])
    ensures k == |s| || IsDigit(s[k])
    decreases |s| - i
  {
    if i == |s| || IsDigit(s[i]) then i else FirstDigitFrom(s, i + 1)
  }

  /**
   * `preg_match('/\d+/', $text)` then `(int)$matches[0]`: the value of the
   * leftmost, longest run of ASCII digits, or None when there is no digit.
   */
  function ParseCategoryId(text: string): (id: Option<int>)
    ensures id.None? <==> forall j :: 0 <= j < |text| ==> !IsDigit(text[j])
    ensures id.Some? ==> id.value >= 0
  {
    var k := FirstDigitFrom(text, 0);
    if k == |text| then None
    else Some(DigitsValue(text[k..k + DigitRunLength(text, k)]))
  }

  /**
   * The id is the value of the first run of digits: text without a digit,
   * then a run of digits, then anything that does not continue the run
   * reads as that run's value, leading zeros included.
   */
  lemma {:induction false} ParseFirstRun(p: string, d: string, q: string)
    requires forall j :: 0 <= j < |p| ==> !IsDigit(p[j])
    requires d != [] && DigitsOnly(d)
    requires q == [] || !IsDigit(q[0])
    ensures ParseCategoryId(p + d + q) == Some(DigitsValue(d))
  {
    var s := p + d + q;
    assert s[|p|] == d[0];
    var k := FirstDigitFrom(s, 0);
    assert k == |p|;
    assert q != [] ==> s[k + |d|] == q[0];
    var n := DigitRunLength(s, k);
    assert n == |d|;
    assert s[k..k + n] == d;
  }

  /** A reply holding a rendered number after text without digits is read as that number. */
  lemma ParseRendered(p: string, n: nat, q: string)
    requires forall j :: 0 <= j < |p| ==> !IsDigit(p[j])
    requires q == [] || !IsDigit(q[0])
    ensures ParseCategoryId(p + NatToString(n) + q) == Some(n)
  {
    ParseFirstRun(p, NatToString(n), q);
    DigitsValueOfNatToString(n);
  }

  const NoCategoriesMessage := "No categories available for this user"

  /**
   * categorizeEmail as written: a parsed id is dropped only when it is truthy
   * and not one of the user's category ids, so an id of 0 is returned as is.
   */
  function CategorizeEmail(categoryIds: set<int>, reply: Reply): (r: CategoryResult)
    ensures categoryIds == {} ==> r == CategoryResult(None, Some(NoCategoriesMessage))
    ensures categoryIds != {} && reply.ApiThrew? ==> r == CategoryResult(None, Some("Categorization failed: " + reply.message))
    ensures categoryIds != {} && reply.Replied? ==> r.error == None
    ensures r.categoryId.Some? ==> r.categoryId.value in categoryIds || r.categoryId.value == 0
  {
    if categoryIds == {} then CategoryResult(None, Some(NoCategoriesMessage))
    else match reply
      case ApiThrew(m) => CategoryResult(None, Some("Categorization failed: " + m))
      case Replied(content) =>
        var id := ParseCategoryId(Trim(content));
        if id.Some? && id.value != 0 && id.value !in categoryIds then CategoryResult(None, None)
        else CategoryResult(id, None)
  }

  /** The counterexample: a reply of "0" yields category 0, which is not one of the user's. */
  lemma CategorizeKeepsZero(reply: Reply)
    requires reply == Replied("0")
    ensures CategorizeEmail({1}, reply).categoryId == Some(0)
    ensures 0 !in {1}
  {
    assert CategorizeEmail({1}, reply) == CategoryResult(Some(0), None) by {
      TrimOfTrimmed(reply.content);
      ParseZero(reply.content);
      KeptWhenZeroOrOwn({1}, reply.content, 0);
    }
  }

  /** A parsed id that is 0 or one of the user's is returned as it is. */
  lemma KeptWhenZeroOrOwn(categoryIds: set<int>, content: string, id: int)
    requires categoryIds != {}
    requires ParseCategoryId(Trim(content)) == Some(id)
    requires id == 0 || id in categoryIds
    ensures CategorizeEmail(categoryIds, Replied(content)) == CategoryResult(Some(id), None)
  {
  }

  lemma ParseZero(text: string)
    requires text == "0"
    ensures ParseCategoryId(text) == Some(0)
  {
    assert DigitRunLength(text, 0) == 1;
    assert text[0..1] == text;
    assert DigitsValue(text) == 0;
  }

  /**
   * categorizeEmail with the validation applied to every parsed id: the
   * result is null or one of the user's category ids.
   */
  function CategorizeEmailChecked(categoryIds: set<int>, reply: Reply): (r: CategoryResult)
    ensures r.categoryId.Some? ==> r.categoryId.value in categoryIds
    ensures r.error == CategorizeEmail(categoryIds, reply).error
    ensures var w := CategorizeEmail(categoryIds, reply).categoryId;
      w.Some? && w.value != 0 ==> r.categoryId == w
  {
    var r := CategorizeEmail(categoryIds, reply);
    if r.categoryId.Some? && r.categoryId.value !in categoryIds then r.(categoryId := None) else r
  }

  /** With no categories the reply is never looked at. */
  lemma CategorizeIgnoresReplyWithoutCategories(reply1: Reply, reply2: Reply)
    ensures CategorizeEmailChecked({}, reply1) == CategorizeEmailChecked({}, reply2)
    ensures CategorizeEmailChecked({}, reply1).error == Some(NoCategoriesMessage)
  {
  }

  lemma TrimSeven(text: string)
    requires text == " 7\n"
    ensures Trim(text) == "7"
  {
    assert TrimLeft(text) == text[1..];
    assert text[1..][1..] == "\n";
    assert TrimRightOf(text[1..], TrimChars) == "7";
  }

  lemma ParseSeven(text: string)
    requires text == "7"
    ensures ParseCategoryId(text) == Some(7)
  {
    assert DigitRunLength(text, 0) == 1;
    assert text[0..1] == text;
    assert DigitsValue(text) == 7;
  }

  /** A reply of " 7\n" picks category 7 among {3, 7}. */
  lemma CategorizeExample(reply: Reply)
    requires reply == Replied(" 7\n")
    ensures CategorizeEmailChecked({3, 7}, reply) == CategoryResult(Some(7), None)
  {
    TrimSeven(reply.content);
    ParseSeven(Trim(reply.content));
  }

  // ------------------------------------------------------------ summary

  const NoContentToSummarize := "Email has no content to summarize"

  /** generateSummary on prepared content. */
  function GenerateSummary(content: string, reply: Reply): (r: SummaryResult)
    ensures !Truthy(content) ==> r == SummaryResult(None, Some(NoContentToSummarize))
    ensures r.summary.None? <==> r.error.Some?
    ensures r.error.Some? ==> Truthy(r.error.value)
    ensures r.summary.Some? ==> reply.Replied? && r.summary.value == Trim(reply.content)
  {
    if !Truthy(content) then SummaryResult(None, Some(NoContentToSummarize))
    else match reply
      case ApiThrew(m) => SummaryResult(None, Some("Summary generation failed: " + m))
      case Replied(text) => SummaryResult(Some(Trim(text)), None)
  }

  // ------------------------------------------------------------ unsubscribe detection

  const NoContentToAnalyze := "Email has no content to analyze"
  const ParseFailure := "Failed to parse AI response"

  /**
   * detectUnsubscribeInfo on prepared content. A truthy URL that does not
   * validate is dropped; the availability flag is kept as the reply gave it.
   */
  function DetectUnsubscribeInfo(content: string, reply: Reply, parseJson: string -> Option<UnsubscribeJson>,
                                 isValidUrl: string -> bool): (r: UnsubscribeResult)
    ensures !Truthy(content) ==> r == UnsubscribeResult(false, None, Some(NoContentToAnalyze))
    ensures Truthy(content) && reply.Replied? && parseJson(Trim(reply.content)).None? ==>
      r == UnsubscribeResult(false, None, Some(ParseFailure))
    ensures r.error.None? <==> Truthy(content) && reply.Replied? && parseJson(Trim(reply.content)).Some?
    ensures r.error.None? ==> var j := parseJson(Trim(reply.content)).value;
      && r.available == j.hasUnsubscribe
      && (r.url == j.url || (r.url == None && !isValidUrl(j.url.value)))
    ensures r.error.Some? ==> !r.available && r.url == None && Truthy(r.error.value)
    ensures r.url.Some? && Truthy(r.url.value) ==> isValidUrl(r.url.value)
  {
    if !Truthy(content) then UnsubscribeResult(false, None, Some(NoContentToAnalyze))
    else match reply
      case ApiThrew(m) => UnsubscribeResult(false, None, Some("Unsubscribe detection failed: " + m))
      case Replied(text) =>
        match parseJson(Trim(text))
        case None => UnsubscribeResult(false, None, Some(ParseFailure))
        case Some(j) =>
          var url := if j.url.Some? && Truthy(j.url.value) && !isValidUrl(j.url.value) then None else j.url;
          UnsubscribeResult(j.hasUnsubscribe, url, None)
  }

  // ------------------------------------------------------------ processEmail

  datatype Operation = Summarize | Categorize | DetectUnsubscribe

  /** The replies each operation would get, and the two PHP built-ins used as oracles. */
  datatype Oracles = Oracles(summaryReply: Reply, categoryReply: Reply, unsubscribeReply: Reply,
                             parseJson: string -> Option<UnsubscribeJson>, isValidUrl: string -> bool)

  /** The result array of processEmail, plus the operations it ran, in order. */
  datatype ProcessResult = ProcessResult(success: bool, categoryId: Option<int>, summary: Option<string>,
                                         isUnsubscribeAvailable: bool, unsubscribeUrl: Option<string>,
                                         error: Option<string>, ran: seq<Operation>)

  /** An error `array_filter` keeps: present and truthy. */
  predicate Kept(x: Option<string>) {
    x.Some? && Truthy(x.value)
  }

  /** `array_filter` on the collected errors: nulls and falsy strings go. */
  function KeptErrors(errs: seq<Option<string>>): (kept: seq<string>)
    ensures |kept| <= |errs|
    ensures forall x :: x in kept ==> Truthy(x)
    ensures kept == [] <==> forall i :: 0 <= i < |errs| ==> !Kept(errs[i])
  {
    if errs == [] then []
    else (if Kept(errs[0]) then [errs[0].value] else []) + KeptErrors(errs[1..])
  }

  /** The filter keeps the order: filtering a concatenation concatenates the filtered parts. */
  lemma {:induction false} KeptErrorsAppend(a: seq<Option<string>>, b: seq<Option<string>>)
    ensures KeptErrors(a + b) == KeptErrors(a) + KeptErrors(b)
    decreases |a|
  {
    if a == [] {
      assert a + b == b;
    } else {
      var head := if Kept(a[0]) then [a[0].value] else [];
      assert KeptErrors(a + b) == head + KeptErrors(a[1..] + b) by {
        assert (a + b)[0] == a[0];
        assert (a + b)[1..] == a[1..] + b;
      }
      KeptErrorsAppend(a[1..], b);
      ConcatAssoc(head, KeptErrors(a[1..]), KeptErrors(b));
    }
  }

  lemma ConcatAssoc<T>(p: seq<T>, q: seq<T>, r: seq<T>)
    ensures p + (q + r) == (p + q) + r
  {
  }

  /** One error is kept exactly when it is present and truthy. */
  lemma KeptErrorsOne(x: Option<string>)
    ensures KeptErrors([x]) == if Kept(x) then [x.value] else []
  {
    assert [x][1..] == [];
  }

  /** `implode(' | ', $errors)`. */
  function Implode(xs: seq<string>): (s: string)
    ensures xs != [] ==> IsPrefix(xs[0], s)
    ensures |xs| == 1 ==> s == xs[0]
  {
    if xs == [] then ""
    else if |xs| == 1 then xs[0]
    else xs[0] + " | " + Implode(xs[1..])
  }

  /** Joining two non-empty lists puts one " | " between their joins. */
  lemma {:induction false} ImplodeAppend(xs: seq<string>, ys: seq<string>)
    requires xs != [] && ys != []
    ensures Implode(xs + ys) == Implode(xs) + " | " + Implode(ys)
    decreases |xs|
  {
    if |xs| == 1 {
      assert (xs + ys)[1..] == ys;
    } else {
      ImplodeAppend(xs[1..], ys);
      assert (xs + ys)[1..] == xs[1..] + ys;
    }
  }

  predicate HasSummary(e: MailStore.Email) {
    e.aiSummary.Some? && Truthy(e.aiSummary.value)
  }

  predicate FullyProcessed(e: MailStore.Email) {
    e.categoryId.Some? && HasSummary(e) && e.isUnsubscribeAvailable.Some?
  }

  function OrderOf(op: Operation): nat {
    match op
    case Summarize => 0
    case Categorize => 1
    case DetectUnsubscribe => 2
  }

  /** The operations that run for a row: exactly the missing ones, in the fixed order. */
  function RanOps(e: MailStore.Email): (ran: seq<Operation>)
    ensures (Summarize in ran <==> !HasSummary(e))
      && (Categorize in ran <==> e.categoryId.None?)
      && (DetectUnsubscribe in ran <==> e.isUnsubscribeAvailable.None?)
    ensures forall i, j :: 0 <= i < j < |ran| ==> OrderOf(ran[i]) < OrderOf(ran[j])
  {
    (if HasSummary(e) then [] else [Summarize]) + (if e.categoryId.Some? then [] else [Categorize])
    + (if e.isUnsubscribeAvailable.Some? then [] else [DetectUnsubscribe])
  }

  /** The summary slot: the stored summary, or a fresh generation. */
  function SummaryStep(e: MailStore.Email, content: string, o: Oracles): (s: SummaryResult)
    ensures HasSummary(e) ==> s == SummaryResult(e.aiSummary, None)
    ensures !HasSummary(e) ==> s == GenerateSummary(content, o.summaryReply)
  {
    if HasSummary(e) then SummaryResult(e.aiSummary, None) else GenerateSummary(content, o.summaryReply)
  }

  /** The category slot: the stored category, or a fresh (checked) categorisation. */
  function CategoryStep(e: MailStore.Email, categoryIds: set<int>, o: Oracles): (c: CategoryResult)
    ensures c.categoryId.Some? ==> c.categoryId == e.categoryId || c.categoryId.value in categoryIds
    ensures e.categoryId.Some? ==> c == CategoryResult(e.categoryId, None)
  {
    if e.categoryId.Some? then CategoryResult(e.categoryId, None) else CategorizeEmailChecked(categoryIds, o.categoryReply)
  }

  /** The unsubscribe slot: the stored check, or a fresh detection. */
  function UnsubscribeStep(e: MailStore.Email, content: string, o: Oracles): (u: UnsubscribeResult)
    ensures e.isUnsubscribeAvailable.Some? ==>
      u == UnsubscribeResult(e.isUnsubscribeAvailable.value, e.unsubscribeUrl, None)
  {
    if e.isUnsubscribeAvailable.Some? then UnsubscribeResult(e.isUnsubscribeAvailable.value, e.unsubscribeUrl, None)
    else DetectUnsubscribeInfo(content, o.unsubscribeReply, o.parseJson, o.isValidUrl)
  }

  /** The joined error of the three slots, or None when none of them has one to keep. */
  function ErrorOf(errs: seq<Option<string>>): (error: Option<string>)
    ensures error.None? <==> forall i :: 0 <= i < |errs| ==> !Kept(errs[i])
  {
    var kept := KeptErrors(errs);
    if kept == [] then None else Some(Implode(kept))
  }

  /** Two joined errors side by side: the one present, or both with " | " between. */
  function JoinErrors(a: Option<string>, b: Option<string>): Option<string> {
    if a.None? then b else if b.None? then a else Some(a.value + " | " + b.value)
  }

  /**
   * The joined error of a concatenation: errors are kept in order and the
   * kept ones of both parts are joined by " | ". With ErrorOfOne this fixes
   * the joined error of every list.
   */
  lemma ErrorOfAppend(a: seq<Option<string>>, b: seq<Option<string>>)
    ensures ErrorOf(a + b) == JoinErrors(ErrorOf(a), ErrorOf(b))
  {
    KeptErrorsAppend(a, b);
    if KeptErrors(a) == [] {
      assert KeptErrors(a + b) == KeptErrors(b);
    } else if KeptErrors(b) == [] {
      assert KeptErrors(a + b) == KeptErrors(a);
    } else {
      ImplodeAppend(KeptErrors(a), KeptErrors(b));
    }
  }

  /** A single error is reported when it is present and truthy, and dropped otherwise. */
  lemma ErrorOfOne(x: Option<string>)
    ensures ErrorOf([x]) == if Kept(x) then x else None
  {
    KeptErrorsOne(x);
  }

  /** What `array_filter` leaves of one error. */
  function KeptOrNone(x: Option<string>): Option<string> {
    if Kept(x) then x else None
  }

  /** The slot errors as processEmail collects them, from left to right. */
  lemma ErrorOfThree(a: Option<string>, b: Option<string>, c: Option<string>)
    ensures ErrorOf([a, b, c]) == JoinErrors(JoinErrors(KeptOrNone(a), KeptOrNone(b)), KeptOrNone(c))
  {
    assert [a, b, c] == [a] + [b] + [c];
    ErrorOfAppend([a] + [b], [c]);
    ErrorOfAppend([a], [b]);
    ErrorOfOne(a);
    ErrorOfOne(b);
    ErrorOfOne(c);
  }

  /** When all three operations fail, their errors are joined in order. */
  lemma AllThreeFail(se: string, ce: string, ue: string)
    requires Truthy(se) && Truthy(ce) && Truthy(ue)
    ensures ErrorOf([Some(se), Some(ce), Some(ue)]) == Some(se + " | " + ce + " | " + ue)
  {
    ErrorOfThree(Some(se), Some(ce), Some(ue));
  }

  /** When only categorisation reports an error, that error is reported alone. */
  lemma OnlyCategoryFails(ce: string)
    requires Truthy(ce)
    ensures ErrorOf([None, Some(ce), None]) == Some(ce)
  {
    ErrorOfThree(None, Some(ce), None);
  }

  /** The error the operation reports when it runs. */
  function OpError(op: Operation, content: string, categoryIds: set<int>, o: Oracles): Option<string> {
    match op
    case Summarize => GenerateSummary(content, o.summaryReply).error
    case Categorize => CategorizeEmailChecked(categoryIds, o.categoryReply).error
    case DetectUnsubscribe => DetectUnsubscribeInfo(content, o.unsubscribeReply, o.parseJson, o.isValidUrl).error
  }

  /** The errors of the operations run, in the order they ran. */
  function OpErrors(ops: seq<Operation>, content: string, categoryIds: set<int>, o: Oracles): (errs: seq<Option<string>>)
    ensures |errs| == |ops|
    ensures forall i :: 0 <= i < |ops| ==> errs[i] == OpError(ops[i], content, categoryIds, o)
  {
    if ops == [] then [] else [OpError(ops[0], content, categoryIds, o)] + OpErrors(ops[1..], content, categoryIds, o)
  }

  /**
   * A skipped slot contributes no error, so the joined slot errors are the
   * joined errors of the operations that ran, in order.
   */
  lemma SlotErrorsAreRunErrors(e: MailStore.Email, content: string, categoryIds: set<int>, o: Oracles)
    ensures ErrorOf([SummaryStep(e, content, o).error, CategoryStep(e, categoryIds, o).error, UnsubscribeStep(e, content, o).error])
         == ErrorOf(OpErrors(RanOps(e), content, categoryIds, o))
  {
    var se := SummaryStep(e, content, o).error;
    var ce := CategoryStep(e, categoryIds, o).error;
    var ue := UnsubscribeStep(e, content, o).error;
    var a := if HasSummary(e) then [] else [Summarize];
    var b := if e.categoryId.Some? then [] else [Categorize];
    var c := if e.isUnsubscribeAvailable.Some? then [] else [DetectUnsubscribe];
    assert RanOps(e) == a + b + c;
    SlotsJoined(a, b, c, se, ce, ue, content, categoryIds, o);
    ErrorOfThree(se, ce, ue);
  }

  /** Three slots, each empty with no error or one operation with its error, join slot by slot. */
  lemma SlotsJoined(a: seq<Operation>, b: seq<Operation>, c: seq<Operation>, se: Option<string>, ce: Option<string>,
                    ue: Option<string>, content: string, categoryIds: set<int>, o: Oracles)
    requires (a == [] && se == None) || (|a| == 1 && se == OpError(a[0], content, categoryIds, o))
    requires (b == [] && ce == None) || (|b| == 1 && ce == OpError(b[0], content, categoryIds, o))
    requires (c == [] && ue == None) || (|c| == 1 && ue == OpError(c[0], content, categoryIds, o))
    ensures ErrorOf(OpErrors(a + b + c, content, categoryIds, o))
         == JoinErrors(JoinErrors(KeptOrNone(se), KeptOrNone(ce)), KeptOrNone(ue))
  {
    var A := OpErrors(a, content, categoryIds, o);
    var B := OpErrors(b, content, categoryIds, o);
    var C := OpErrors(c, content, categoryIds, o);
    assert OpErrors(a + b + c, content, categoryIds, o) == A + B + C by {
      OpErrorsAppend(a + b, c, content, categoryIds, o);
      OpErrorsAppend(a, b, content, categoryIds, o);
    }
    assert ErrorOf(A + B + C) == JoinErrors(JoinErrors(ErrorOf(A), ErrorOf(B)), ErrorOf(C)) by {
      ErrorOfAppend(A + B, C);
      ErrorOfAppend(A, B);
    }
    SlotError(a, se, content, categoryIds, o);
    SlotError(b, ce, content, categoryIds, o);
    SlotError(c, ue, content, categoryIds, o);
  }

  /** A slot that ran contributes its operation's error; one that was skipped, none. */
  lemma SlotError(ops: seq<Operation>, x: Option<string>, content: string, categoryIds: set<int>, o: Oracles)
    requires (ops == [] && x == None) || (|ops| == 1 && x == OpError(ops[0], content, categoryIds, o))
    ensures ErrorOf(OpErrors(ops, content, categoryIds, o)) == KeptOrNone(x)
  {
    if ops != [] {
      assert OpErrors(ops, content, categoryIds, o) == [x];
      ErrorOfOne(x);
    }
  }

  lemma OpErrorsAppend(a: seq<Operation>, b: seq<Operation>, content: string, categoryIds: set<int>, o: Oracles)
    ensures OpErrors(a + b, content, categoryIds, o) == OpErrors(a, content, categoryIds, o) + OpErrors(b, content, categoryIds, o)
  {
    var l := OpErrors(a + b, content, categoryIds, o);
    var r := OpErrors(a, content, categoryIds, o) + OpErrors(b, content, categoryIds, o);
    forall i | 0 <= i < |l|
      ensures l[i] == r[i]
    {
      if i < |a| {
        assert (a + b)[i] == a[i];
      } else {
        assert (a + b)[i] == b[i - |a|];
      }
    }
  }

  /**
   * processEmail: each operation runs only when its field is missing, in the
   * order summary, category, unsubscribe; present fields are copied through;
   * the error is the kept per-operation errors joined by " | "; success means
   * at least one of summary, category or the unsubscribe flag came out set.
   * Categorisation uses the checked id validation.
   */
  function ProcessSpec(e: MailStore.Email, categoryIds: set<int>, o: Oracles): (r: ProcessResult)
    ensures FullyProcessed(e) ==>
      r == ProcessResult(true, e.categoryId, e.aiSummary, e.isUnsubscribeAvailable.value, e.unsubscribeUrl, None, [])
    ensures !FullyProcessed(e) ==> r.ran == RanOps(e)
    ensures HasSummary(e) ==> r.summary == e.aiSummary
    ensures e.categoryId.Some? ==> r.categoryId == e.categoryId
    ensures e.isUnsubscribeAvailable.Some? ==>
      r.isUnsubscribeAvailable == e.isUnsubscribeAvailable.value && r.unsubscribeUrl == e.unsubscribeUrl
    ensures r.categoryId.Some? ==> r.categoryId == e.categoryId || r.categoryId.value in categoryIds
    ensures r.success <==> r.summary.Some? || r.categoryId.Some? || r.isUnsubscribeAvailable
  {
    if FullyProcessed(e) then
      ProcessResult(true, e.categoryId, e.aiSummary, e.isUnsubscribeAvailable.value, e.unsubscribeUrl, None, [])
    else
      var content := PrepareEmailContent(e.body, e.snippet);
      var s := SummaryStep(e, content, o);
      var c := CategoryStep(e, categoryIds, o);
      var u := UnsubscribeStep(e, content, o);
      ProcessResult(s.summary.Some? || c.categoryId.Some? || u.available, c.categoryId, s.summary, u.available, u.url,
                    ErrorOf([s.error, c.error, u.error]), RanOps(e))
  }

  /**
   * The error processEmail reports is the kept errors of exactly the
   * operations that ran, in the order they ran, joined by " | ".
   */
  lemma ProcessErrorIsRunErrors(e: MailStore.Email, categoryIds: set<int>, o: Oracles)
    ensures var r := ProcessSpec(e, categoryIds, o);
      !FullyProcessed(e) ==> r.error == ErrorOf(OpErrors(r.ran, PrepareEmailContent(e.body, e.snippet), categoryIds, o))
  {
    if !FullyProcessed(e) {
      SlotErrorsAreRunErrors(e, PrepareEmailContent(e.body, e.snippet), categoryIds, o);
    }
  }

  /**
   * A failed run is always explained: when nothing came out set, the summary
   * operation ran and reported why, so the error is present.
   */
  lemma FailureHasError(e: MailStore.Email, categoryIds: set<int>, o: Oracles)
    ensures var r := ProcessSpec(e, categoryIds, o);
      !r.success ==> r.error.Some? && Summarize in r.ran
  {
    var r := ProcessSpec(e, categoryIds, o);
    if !r.success {
      var content := PrepareEmailContent(e.body, e.snippet);
      var s := SummaryStep(e, content, o);
      var errs := [s.error, CategoryStep(e, categoryIds, o).error, UnsubscribeStep(e, content, o).error];
      assert !HasSummary(e);
      assert s.error.Some? && Truthy(s.error.value);
      assert errs[0] == s.error;
    }
  }

  /** The summary block of processEmail. */
  method FillSummary(e: MailStore.Email, content: string, o: Oracles) returns (summary: Option<string>, error: Option<string>, ran: seq<Operation>)
    ensures SummaryResult(summary, error) == SummaryStep(e, content, o)
    ensures ran == if HasSummary(e) then [] else [Summarize]
  {
    if !HasSummary(e) {
      var s := GenerateSummary(content, o.summaryReply);
      summary, error, ran := s.summary, s.error, [Summarize];
    } else {
      summary, error, ran := e.aiSummary, None, [];
    }
  }

  /** The categorisation block of processEmail. */
  method FillCategory(e: MailStore.Email, categoryIds: set<int>, o: Oracles) returns (categoryId: Option<int>, error: Option<string>, ran: seq<Operation>)
    ensures CategoryResult(categoryId, error) == CategoryStep(e, categoryIds, o)
    ensures ran == if e.categoryId.Some? then [] else [Categorize]
  {
    if e.categoryId.None? {
      var c := CategorizeEmailChecked(categoryIds, o.categoryReply);
      categoryId, error, ran := c.categoryId, c.error, [Categorize];
    } else {
      categoryId, error, ran := e.categoryId, None, [];
    }
  }

  /** The unsubscribe block of processEmail. */
  method FillUnsubscribe(e: MailStore.Email, content: string, o: Oracles)
    returns (available: bool, url: Option<string>, error: Option<string>, ran: seq<Operation>)
    ensures UnsubscribeResult(available, url, error) == UnsubscribeStep(e, content, o)
    ensures ran == if e.isUnsubscribeAvailable.Some? then [] else [DetectUnsubscribe]
  {
    if e.isUnsubscribeAvailable.None? {
      var u := DetectUnsubscribeInfo(content, o.unsubscribeReply, o.parseJson, o.isValidUrl);
      available, url, error, ran := u.available, u.url, u.error, [DetectUnsubscribe];
    } else {
      available, url, error, ran := e.isUnsubscribeAvailable.value, e.unsubscribeUrl, None, [];
    }
  }

  /** OpenAIService::processEmail, filling the result slot by slot and collecting the errors. */
  method ProcessEmail(e: MailStore.Email, categoryIds: set<int>, o: Oracles) returns (r: ProcessResult)
    ensures r == ProcessSpec(e, categoryIds, o)
  {
    if FullyProcessed(e) {
      return ProcessResult(true, e.categoryId, e.aiSummary, e.isUnsubscribeAvailable.value, e.unsubscribeUrl, None, []);
    }
    var content := PrepareEmailContent(e.body, e.snippet);
    var summary, summaryError, ran1 := FillSummary(e, content, o);
    var categoryId, categoryError, ran2 := FillCategory(e, categoryIds, o);
    var available, url, unsubscribeError, ran3 := FillUnsubscribe(e, content, o);
    var errors := [summaryError, categoryError, unsubscribeError];
    r := ProcessResult(summary.Some? || categoryId.Some? || available, categoryId, summary, available, url,
                       ErrorOf(errors), ran1 + ran2 + ran3);
  }
}
