/** Keyword classification of courier remarks into NDR reasons and RTO states. */
module ReasonCodes {
  import opened Options

  datatype Pattern<C> = Pattern(code: C, keywords: seq<string>)

  datatype Reason = CustomerUnavailable | AddressIncorrect | CustomerRefused | CodNotReady | Other

  datatype RtoStatus = RtoInitiated | RtoInTransit | RtoDelivered | RtoLost

  const FAILURE_KEYWORDS: seq<string> :=
    ["undelivered", "failed attempt", "delivery failed", "attempted", "failed", "could not deliver", "held", "delay"]

  const NDR_PATTERNS: seq<Pattern<Reason>> := [
    Pattern(CustomerUnavailable,
            ["unavailable", "unreachable", "not available", "door closed", "consignee absent", "not present",
             "could not reach", "no response"]),
    Pattern(AddressIncorrect,
            ["incorrect address", "incomplete address", "wrong address", "address incorrect", "address issue",
             "bad address", "pincode wrong", "wrong pincode"]),
    Pattern(CustomerRefused,
            ["refused", "rejected", "customer refused", "consignee refused", "consignee rejected", "cancelled by customer"]),
    Pattern(CodNotReady,
            ["cod amount not ready", "cash not ready", "money not ready", "cod not ready", "payment not ready",
             "amount not ready"])]

  const RTO_PATTERNS: seq<Pattern<RtoStatus>> := [
    Pattern(RtoInitiated, ["rto initiated", "rto created", "return initiated", "return created", "undelivered return"]),
    Pattern(RtoInTransit,
            ["rto in transit", "rto transit", "return in transit", "return transit", "returning to origin",
             "sent back to origin"]),
    Pattern(RtoDelivered,
            ["rto delivered", "returned to origin", "returned back to merchant", "delivered to origin", "return delivered"]),
    Pattern(RtoLost, ["rto lost", "return lost", "lost in return"])]

  /** Lower-casing unit by unit. */
  function Lower(fold: char -> string, s: string): string {
    if |s| == 0 then "" else Lower(fold, s[..|s| - 1]) + fold(s[|s| - 1])
  }

  predicate OccursAt(text: string, keyword: string, i: nat) {
    i + |keyword| <= |text| && text[i..i + |keyword|] == keyword
  }

  predicate Includes(text: string, keyword: string) {
    exists i :: 0 <= i <= |text| && OccursAt(text, keyword, i)
  }

  predicate IncludesAny(text: string, keywords: seq<string>) {
    exists k :: 0 <= k < |keywords| && Includes(text, keywords[k])
  }

  /** The position of the first pattern with a keyword in the text, or the number of patterns. */
  function FirstMatch<C>(text: string, patterns: seq<Pattern<C>>): (r: nat)
    ensures r <= |patterns|
  {
    if |patterns| == 0 then 0
    else if IncludesAny(text, patterns[0].keywords) then 0
    else 1 + FirstMatch(text, patterns[1..])
  }

  function Text(fold: char -> string, rawStatus: Option<string>, remark: Option<string>): string {
    Lower(fold, rawStatus.GetOr("") + " " + remark.GetOr(""))
  }

  function ReasonIn(text: string, failures: seq<string>, patterns: seq<Pattern<Reason>>): Option<Reason> {
    if !IncludesAny(text, failures) then None
    else
      var i := FirstMatch(text, patterns);
      Some(if i < |patterns| then patterns[i].code else Other)
  }

  function StatusIn(text: string, patterns: seq<Pattern<RtoStatus>>): Option<RtoStatus> {
    var i := FirstMatch(text, patterns);
    if i < |patterns| then Some(patterns[i].code) else None
  }

  function DetectNdrReason(fold: char -> string, rawStatus: Option<string>, remark: Option<string>): Option<Reason> {
    ReasonIn(Text(fold, rawStatus, remark), FAILURE_KEYWORDS, NDR_PATTERNS)
  }

  function DetectRtoStatus(fold: char -> string, rawStatus: Option<string>, remark: Option<string>): Option<RtoStatus> {
    StatusIn(Text(fold, rawStatus, remark), RTO_PATTERNS)
  }

  // ---------- The answers ----------

  lemma FourPatterns<C>(text: string, patterns: seq<Pattern<C>>)
    requires |patterns| == 4
    ensures FirstMatch(text, patterns) ==
      if IncludesAny(text, patterns[0].keywords) then 0
      else if IncludesAny(text, patterns[1].keywords) then 1
      else if IncludesAny(text, patterns[2].keywords) then 2
      else if IncludesAny(text, patterns[3].keywords) then 3
      else 4
  {
    hide IncludesAny;
    assert patterns[1..][1..] == patterns[2..] && patterns[2..][1..] == patterns[3..] && patterns[3..][1..] == [];
    assert FirstMatch(text, patterns[3..]) == if IncludesAny(text, patterns[3].keywords) then 0 else 1;
    assert FirstMatch(text, patterns[2..]) == if IncludesAny(text, patterns[2].keywords) then 0 else 1 + FirstMatch(text, patterns[3..]);
  }

  /** The reason for every text: none unless it speaks of a failed delivery, and then the first group with a word in it. */
  lemma NdrReasonIs(fold: char -> string, rawStatus: Option<string>, remark: Option<string>)
    ensures var text, r := Text(fold, rawStatus, remark), DetectNdrReason(fold, rawStatus, remark);
      var failed := IncludesAny(text,
        ["undelivered", "failed attempt", "delivery failed", "attempted", "failed", "could not deliver", "held", "delay"]);
      var absent := IncludesAny(text,
        ["unavailable", "unreachable", "not available", "door closed", "consignee absent", "not present",
         "could not reach", "no response"]);
      var address := IncludesAny(text,
        ["incorrect address", "incomplete address", "wrong address", "address incorrect", "address issue",
         "bad address", "pincode wrong", "wrong pincode"]);
      var refused := IncludesAny(text,
        ["refused", "rejected", "customer refused", "consignee refused", "consignee rejected", "cancelled by customer"]);
      var unpaid := IncludesAny(text,
        ["cod amount not ready", "cash not ready", "money not ready", "cod not ready", "payment not ready", "amount not ready"]);
      r == if !failed then None
        else if absent then Some(CustomerUnavailable)
        else if address then Some(AddressIncorrect)
        else if refused then Some(CustomerRefused)
        else if unpaid then Some(CodNotReady)
        else Some(Other)
  {
    hide IncludesAny;
    hide Text;
    FourPatterns(Text(fold, rawStatus, remark), NDR_PATTERNS);
    hide FirstMatch;
  }

  /** The RTO state for every text: the first group with a word in it. */
  lemma RtoStatusIs(fold: char -> string, rawStatus: Option<string>, remark: Option<string>)
    ensures var text, r := Text(fold, rawStatus, remark), DetectRtoStatus(fold, rawStatus, remark);
      var initiated := IncludesAny(text,
        ["rto initiated", "rto created", "return initiated", "return created", "undelivered return"]);
      var moving := IncludesAny(text,
        ["rto in transit", "rto transit", "return in transit", "return transit", "returning to origin", "sent back to origin"]);
      var returned := IncludesAny(text,
        ["rto delivered", "returned to origin", "returned back to merchant", "delivered to origin", "return delivered"]);
      var lost := IncludesAny(text, ["rto lost", "return lost", "lost in return"]);
      r == if initiated then Some(RtoInitiated)
        else if moving then Some(RtoInTransit)
        else if returned then Some(RtoDelivered)
        else if lost then Some(RtoLost)
        else None
  {
    hide IncludesAny;
    hide Text;
    FourPatterns(Text(fold, rawStatus, remark), RTO_PATTERNS);
    hide FirstMatch;
  }

  /** The text is the lower-cased raw status, a blank and the lower-cased remark, each folded unit by unit. */
  lemma TextIsBoth(fold: char -> string, rawStatus: Option<string>, remark: Option<string>)
    ensures Text(fold, rawStatus, remark) == Lower(fold, rawStatus.GetOr("")) + fold(' ') + Lower(fold, remark.GetOr(""))
  {
    LowerAppends(fold, rawStatus.GetOr("") + " ", remark.GetOr(""));
    LowerAppends(fold, rawStatus.GetOr(""), " ");
    LowerIsFold(fold, ' ');
  }

  lemma LowerIsFold(fold: char -> string, c: char)
    ensures Lower(fold, [c]) == fold(c)
  {
    assert [c][..0] == "";
  }

  lemma IncludesInMiddle(head: string, text: string, tail: string, keyword: string)
    requires Includes(text, keyword)
    ensures Includes(head + text + tail, keyword)
  {
    var i :| 0 <= i <= |text| && OccursAt(text, keyword, i);
    assert (head + text + tail)[|head| + i..|head| + i + |keyword|] == text[i..i + |keyword|];
    assert OccursAt(head + text + tail, keyword, |head| + i);
  }

  /** A word counts wherever it stands: in the raw status as well as in the remark. */
  lemma WordsOfBothCount(fold: char -> string, rawStatus: Option<string>, remark: Option<string>, keyword: string)
    requires Includes(Lower(fold, rawStatus.GetOr("")), keyword) || Includes(Lower(fold, remark.GetOr("")), keyword)
    ensures Includes(Text(fold, rawStatus, remark), keyword)
  {
    var raw, rest := Lower(fold, rawStatus.GetOr("")), Lower(fold, remark.GetOr(""));
    TextIsBoth(fold, rawStatus, remark);
    if Includes(raw, keyword) {
      IncludesInMiddle("", raw, fold(' ') + rest, keyword);
      assert "" + raw + (fold(' ') + rest) == raw + fold(' ') + rest;
    } else {
      IncludesInMiddle(raw + fold(' '), rest, "", keyword);
      assert raw + fold(' ') + rest + "" == raw + fold(' ') + rest;
    }
  }

  // ---------- Longer texts ----------

  lemma {:induction false} LowerAppends(fold: char -> string, a: string, b: string)
    ensures Lower(fold, a + b) == Lower(fold, a) + Lower(fold, b)
    decreases |b|
  {
    if |b| == 0 {
      assert a + b == a;
    } else {
      var front, s := b[..|b| - 1], a + b;
      LowerAppends(fold, a, front);
      assert s[..|s| - 1] == a + front && s[|s| - 1] == b[|b| - 1];
      assert Lower(fold, s) == (Lower(fold, a) + Lower(fold, front)) + fold(b[|b| - 1]);
    }
  }

  lemma IncludesInLonger(text: string, more: string, keywords: seq<string>)
    requires IncludesAny(text, keywords)
    ensures IncludesAny(text + more, keywords)
  {
    var k :| 0 <= k < |keywords| && Includes(text, keywords[k]);
    var i :| 0 <= i <= |text| && OccursAt(text, keywords[k], i);
    assert (text + more)[i..i + |keywords[k]|] == text[i..i + |keywords[k]|];
    assert OccursAt(text + more, keywords[k], i);
  }

  lemma {:induction false} LongerMatchesEarlier<C>(text: string, more: string, patterns: seq<Pattern<C>>)
    ensures FirstMatch(text + more, patterns) <= FirstMatch(text, patterns)
    decreases |patterns|
  {
    if |patterns| > 0 {
      if IncludesAny(text, patterns[0].keywords) {
        IncludesInLonger(text, more, patterns[0].keywords);
      }
      LongerMatchesEarlier(text, more, patterns[1..]);
    }
  }

  /** The first match is the least pattern with a keyword in the text. */
  lemma {:induction false} FirstMatchIsLeast<C>(text: string, patterns: seq<Pattern<C>>, i: nat)
    requires i < |patterns|
    ensures FirstMatch(text, patterns) == i <==>
      IncludesAny(text, patterns[i].keywords) && forall j :: 0 <= j < i ==> !IncludesAny(text, patterns[j].keywords)
    decreases |patterns|
  {
    if i > 0 {
      FirstMatchIsLeast(text, patterns[1..], i - 1);
      assert forall j :: 0 <= j < i - 1 ==> patterns[1..][j] == patterns[j + 1];
      if forall j :: 0 <= j < i - 1 ==> !IncludesAny(text, patterns[1..][j].keywords) {
        forall j | 1 <= j < i ensures !IncludesAny(text, patterns[j].keywords) {
          assert patterns[j] == patterns[1..][j - 1];
        }
      }
    }
  }

  function ReasonRank(r: Option<Reason>): nat {
    match r
    case Some(CustomerUnavailable) => 0
    case Some(AddressIncorrect) => 1
    case Some(CustomerRefused) => 2
    case Some(CodNotReady) => 3
    case Some(Other) => 4
    case None => 5
  }

  function RtoRank(r: Option<RtoStatus>): nat {
    match r
    case Some(RtoInitiated) => 0
    case Some(RtoInTransit) => 1
    case Some(RtoDelivered) => 2
    case Some(RtoLost) => 3
    case None => 4
  }

  lemma TextOfLongerRemark(fold: char -> string, rawStatus: Option<string>, remark: string, more: string)
    ensures Text(fold, rawStatus, Some(remark + more)) == Text(fold, rawStatus, Some(remark)) + Lower(fold, more)
  {
    var head := rawStatus.GetOr("") + " " + remark;
    LowerAppends(fold, head, more);
    assert rawStatus.GetOr("") + " " + (remark + more) == head + more;
  }

  /** More text in a remark never takes a reason away and only moves a result to an equal or earlier pattern. */
  lemma LongerRemark(fold: char -> string, rawStatus: Option<string>, remark: string, more: string)
    ensures ReasonRank(DetectNdrReason(fold, rawStatus, Some(remark + more))) <= ReasonRank(DetectNdrReason(fold, rawStatus, Some(remark)))
    ensures RtoRank(DetectRtoStatus(fold, rawStatus, Some(remark + more))) <= RtoRank(DetectRtoStatus(fold, rawStatus, Some(remark)))
  {
    var text, tail := Text(fold, rawStatus, Some(remark)), Lower(fold, more);
    TextOfLongerRemark(fold, rawStatus, remark, more);
    if IncludesAny(text, FAILURE_KEYWORDS) {
      IncludesInLonger(text, tail, FAILURE_KEYWORDS);
    }
    LongerMatchesEarlier(text, tail, NDR_PATTERNS);
    LongerMatchesEarlier(text, tail, RTO_PATTERNS);
    ReasonRankIsMatch(text);
    ReasonRankIsMatch(text + tail);
    RtoRankIsMatch(text);
    RtoRankIsMatch(text + tail);
  }

  lemma ReasonRankIsMatch(text: string)
    ensures var i := FirstMatch(text, NDR_PATTERNS);
      ReasonRank(Some(if i < |NDR_PATTERNS| then NDR_PATTERNS[i].code else Other)) == i
  {
  }

  lemma RtoRankIsMatch(text: string)
    ensures var i := FirstMatch(text, RTO_PATTERNS);
      RtoRank(if i < |RTO_PATTERNS| then Some(RTO_PATTERNS[i].code) else None) == i
  {
  }

  // ---------- Redundant keywords ----------

  /** `kept` is a selection of `keywords` such that every keyword contains a kept one. */
  ghost predicate Reduces(kept: seq<string>, keywords: seq<string>) {
    && (forall k :: 0 <= k < |kept| ==> kept[k] in keywords)
    && (forall k :: 0 <= k < |keywords| ==> IncludesAny(keywords[k], kept))
  }

  lemma IncludesIsTransitive(text: string, long: string, short: string)
    requires Includes(text, long) && Includes(long, short)
    ensures Includes(text, short)
  {
    var i :| 0 <= i <= |text| && OccursAt(text, long, i);
    var j :| 0 <= j <= |long| && OccursAt(long, short, j);
    forall k | 0 <= k < |short| ensures text[i + j + k] == short[k] {
      assert long[j..j + |short|][k] == long[j + k] && text[i..i + |long|][j + k] == text[i + j + k];
    }
    assert text[i + j..i + j + |short|] == short;
    assert OccursAt(text, short, i + j);
  }

  /** Deleting keywords that contain a kept keyword changes no answer on any text. */
  lemma ReducedKeywordsAgree(kept: seq<string>, keywords: seq<string>, text: string)
    requires Reduces(kept, keywords)
    ensures IncludesAny(text, kept) <==> IncludesAny(text, keywords)
  {
    if IncludesAny(text, kept) {
      var k :| 0 <= k < |kept| && Includes(text, kept[k]);
      var m :| 0 <= m < |keywords| && keywords[m] == kept[k];
    }
    if IncludesAny(text, keywords) {
      var k :| 0 <= k < |keywords| && Includes(text, keywords[k]);
      assert IncludesAny(keywords[k], kept);
      var m :| 0 <= m < |kept| && Includes(keywords[k], kept[m]);
      IncludesIsTransitive(text, keywords[k], kept[m]);
    }
  }

  /** The same codes in the same order, with keyword lists that answer alike on the text. */
  ghost predicate AnswerAlike<C>(a: seq<Pattern<C>>, b: seq<Pattern<C>>, text: string) {
    |a| == |b| && forall i :: 0 <= i < |a| ==>
      a[i].code == b[i].code && (IncludesAny(text, a[i].keywords) <==> IncludesAny(text, b[i].keywords))
  }

  lemma {:induction false} AlikeMatchAlike<C>(a: seq<Pattern<C>>, b: seq<Pattern<C>>, text: string)
    requires AnswerAlike(a, b, text)
    ensures FirstMatch(text, a) == FirstMatch(text, b)
    decreases |a|
  {
    hide IncludesAny;
    if |a| > 0 {
      AlikeMatchAlike(a[1..], b[1..], text);
    }
  }

  ghost predicate ReducesAll<C>(reduced: seq<Pattern<C>>, patterns: seq<Pattern<C>>) {
    |reduced| == |patterns| && forall i :: 0 <= i < |patterns| ==>
      reduced[i].code == patterns[i].code && Reduces(reduced[i].keywords, patterns[i].keywords)
  }

  lemma ReducedPatternsAnswerAlike<C>(reduced: seq<Pattern<C>>, patterns: seq<Pattern<C>>, text: string)
    requires ReducesAll(reduced, patterns)
    ensures AnswerAlike(reduced, patterns, text)
  {
    forall i | 0 <= i < |patterns|
      ensures IncludesAny(text, reduced[i].keywords) <==> IncludesAny(text, patterns[i].keywords)
    {
      ReducedKeywordsAgree(reduced[i].keywords, patterns[i].keywords, text);
    }
  }

  lemma ReducedPatternsAgree<C>(reduced: seq<Pattern<C>>, patterns: seq<Pattern<C>>, text: string)
    requires ReducesAll(reduced, patterns)
    ensures FirstMatch(text, reduced) == FirstMatch(text, patterns)
  {
    ReducedPatternsAnswerAlike(reduced, patterns, text);
    AlikeMatchAlike(reduced, patterns, text);
  }

  /** Deleting redundant keywords from both tables of the NDR detector changes none of its answers. */
  lemma ReducedReasonsAgree(fewerFailures: seq<string>, failures: seq<string>,
                            fewerPatterns: seq<Pattern<Reason>>, patterns: seq<Pattern<Reason>>, text: string)
    requires Reduces(fewerFailures, failures) && ReducesAll(fewerPatterns, patterns)
    ensures ReasonIn(text, fewerFailures, fewerPatterns) == ReasonIn(text, failures, patterns)
  {
    hide IncludesAny;
    hide FirstMatch;
    hide Reduces;
    ReducedKeywordsAgree(fewerFailures, failures, text);
    ReducedPatternsAgree(fewerPatterns, patterns, text);
  }

  /** Nor do they change one of the RTO detector. */
  lemma ReducedStatusesAgree(fewerPatterns: seq<Pattern<RtoStatus>>, fold: char -> string, rawStatus: Option<string>, remark: Option<string>)
    requires ReducesAll(fewerPatterns, RTO_PATTERNS)
    ensures StatusIn(Text(fold, rawStatus, remark), fewerPatterns) == DetectRtoStatus(fold, rawStatus, remark)
  {
    hide IncludesAny;
    hide FirstMatch;
    hide Reduces;
    ReducedPatternsAgree(fewerPatterns, RTO_PATTERNS, Text(fold, rawStatus, remark));
  }

  /** Every keyword is kept, or is one of the dropped ones, which contain a kept one. */
  lemma ReducesByDropping(kept: seq<string>, keywords: seq<string>, dropped: seq<string>)
    requires forall k :: 0 <= k < |kept| ==> kept[k] in keywords
    requires forall k :: 0 <= k < |keywords| ==> keywords[k] in kept || keywords[k] in dropped
    requires forall k :: 0 <= k < |dropped| ==> IncludesAny(dropped[k], kept)
    ensures Reduces(kept, keywords)
  {
    forall k | 0 <= k < |keywords| ensures IncludesAny(keywords[k], kept) {
      if keywords[k] in kept {
        var i :| 0 <= i < |kept| && kept[i] == keywords[k];
        assert OccursAt(keywords[k], kept[i], 0);
        assert Includes(keywords[k], kept[i]);
      }
    }
  }

  lemma IncludesBetween(head: string, tail: string, kept: seq<string>, i: nat)
    requires i < |kept|
    ensures IncludesAny(head + kept[i] + tail, kept)
  {
    assert OccursAt(head + kept[i] + tail, kept[i], |head|);
    assert Includes(head + kept[i] + tail, kept[i]);
  }

  const FEWER_FAILURES: seq<string> := ["undelivered", "attempted", "failed", "could not deliver", "held", "delay"]

  const FEWER_REFUSALS: seq<string> := ["refused", "rejected", "cancelled by customer"]

  const FEWER_PAYMENTS: seq<string> :=
    ["cash not ready", "money not ready", "cod not ready", "payment not ready", "amount not ready"]

  const FEWER_PATTERNS: seq<Pattern<Reason>> :=
    [NDR_PATTERNS[0], NDR_PATTERNS[1], Pattern(CustomerRefused, FEWER_REFUSALS), Pattern(CodNotReady, FEWER_PAYMENTS)]

  lemma RedundantFailureKeywords()
    ensures Reduces(FEWER_FAILURES, FAILURE_KEYWORDS)
  {
    hide IncludesAny;
    IncludesBetween("", " attempt", FEWER_FAILURES, 2);
    IncludesBetween("delivery ", "", FEWER_FAILURES, 2);
    assert "" + "failed" + " attempt" == "failed attempt" && "delivery " + "failed" + "" == "delivery failed";
    ReducesByDropping(FEWER_FAILURES, FAILURE_KEYWORDS, ["failed attempt", "delivery failed"]);
  }

  lemma RedundantRefusalKeywords()
    ensures Reduces(FEWER_REFUSALS, NDR_PATTERNS[2].keywords)
  {
    hide IncludesAny;
    IncludesBetween("customer ", "", FEWER_REFUSALS, 0);
    IncludesBetween("consignee ", "", FEWER_REFUSALS, 0);
    IncludesBetween("consignee ", "", FEWER_REFUSALS, 1);
    assert "customer " + "refused" + "" == "customer refused";
    assert "consignee " + "refused" + "" == "consignee refused" && "consignee " + "rejected" + "" == "consignee rejected";
    ReducesByDropping(FEWER_REFUSALS, NDR_PATTERNS[2].keywords, ["customer refused", "consignee refused", "consignee rejected"]);
  }

  lemma RedundantPaymentKeywords()
    ensures Reduces(FEWER_PAYMENTS, NDR_PATTERNS[3].keywords)
  {
    hide IncludesAny;
    IncludesBetween("cod ", "", FEWER_PAYMENTS, 4);
    assert "cod " + "amount not ready" + "" == "cod amount not ready";
    ReducesByDropping(FEWER_PAYMENTS, NDR_PATTERNS[3].keywords, ["cod amount not ready"]);
  }

  lemma ReducesItself(keywords: seq<string>)
    ensures Reduces(keywords, keywords)
  {
    hide IncludesAny;
    ReducesByDropping(keywords, keywords, []);
  }

  lemma FewerPatternsReduce()
    ensures ReducesAll(FEWER_PATTERNS, NDR_PATTERNS)
  {
    hide Reduces;
    RedundantRefusalKeywords();
    RedundantPaymentKeywords();
    ReducesItself(NDR_PATTERNS[0].keywords);
    ReducesItself(NDR_PATTERNS[1].keywords);
  }

  /** Two of the delivery-failure keywords, three of the refusal keywords and one of the payment keywords never decide a reason. */
  lemma SixKeywordsDecideNothing(fold: char -> string, rawStatus: Option<string>, remark: Option<string>)
    ensures ReasonIn(Text(fold, rawStatus, remark), FEWER_FAILURES, FEWER_PATTERNS) == DetectNdrReason(fold, rawStatus, remark)
  {
    hide Reduces;
    hide ReducesAll;
    hide ReasonIn;
    hide Text;
    RedundantFailureKeywords();
    FewerPatternsReduce();
    ReducedReasonsAgree(FEWER_FAILURES, FAILURE_KEYWORDS, FEWER_PATTERNS, NDR_PATTERNS, Text(fold, rawStatus, remark));
  }
}
