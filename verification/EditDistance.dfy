/**
 The fuzzy name matcher of the KYC service: the table of Levenshtein distances and the
 penny-drop decision taken from it.

 `fold` stands for the lower-casing of one UTF-16 unit, which yields a string; nothing is
 assumed about it.
 */
module EditDistance {
  import opened Options

  function Min3(a: nat, b: nat, c: nat): nat {
    if a <= b && a <= c then a else if b <= c then b else c
  }

  function Cost(fold: char -> string, c: char, d: char): nat {
    if fold(c) == fold(d) then 0 else 1
  }

  function Front(s: string): string
    requires |s| > 0
  {
    s[..|s| - 1]
  }

  function Last(s: string): char
    requires |s| > 0
  {
    s[|s| - 1]
  }

  /** The recurrence behind the table, on whole strings. */
  function Distance(fold: char -> string, s: string, t: string): nat
    decreases |s| + |t|
  {
    if |s| == 0 then |t|
    else if |t| == 0 then |s|
    else
      var deletion := Distance(fold, Front(s), t) + 1;
      var insertion := Distance(fold, s, Front(t)) + 1;
      var substitution := Distance(fold, Front(s), Front(t)) + Cost(fold, Last(s), Last(t));
      Min3(deletion, insertion, substitution)
  }

  /** The recurrence takes the least of its three choices. */
  lemma Recurrence(fold: char -> string, s: string, t: string)
    ensures |s| == 0 ==> Distance(fold, s, t) == |t|
    ensures |t| == 0 ==> Distance(fold, s, t) == |s|
    ensures |s| > 0 && |t| > 0 ==>
      var deletion := Distance(fold, Front(s), t) + 1;
      var insertion := Distance(fold, s, Front(t)) + 1;
      var substitution := Distance(fold, Front(s), Front(t)) + Cost(fold, Last(s), Last(t));
      var d := Distance(fold, s, t);
      && d <= deletion && d <= insertion && d <= substitution
      && (d == deletion || d == insertion || d == substitution)
  {
  }

  predicate SameFolded(fold: char -> string, s: string, t: string) {
    |s| == |t| && forall i :: 0 <= i < |s| ==> fold(s[i]) == fold(t[i])
  }

  // ---------- The table ----------

  /** What cell (i, j) of the table holds. */
  function Cell(fold: char -> string, s1: string, s2: string, i: nat, j: nat): nat
    requires i <= |s1| && j <= |s2|
  {
    Distance(fold, s1[..i], s2[..j])
  }

  lemma CellRecurrence(fold: char -> string, s1: string, s2: string, i: nat, j: nat)
    requires i <= |s1| && j <= |s2|
    ensures i == 0 ==> Cell(fold, s1, s2, i, j) == j
    ensures j == 0 ==> Cell(fold, s1, s2, i, j) == i
    ensures 0 < i && 0 < j ==>
      var deletion := Cell(fold, s1, s2, i - 1, j) + 1;
      var insertion := Cell(fold, s1, s2, i, j - 1) + 1;
      var substitution := Cell(fold, s1, s2, i - 1, j - 1) + Cost(fold, s1[i - 1], s2[j - 1]);
      var d := Cell(fold, s1, s2, i, j);
      && d <= deletion && d <= insertion && d <= substitution
      && (d == deletion || d == insertion || d == substitution)
  {
    hide Distance;
    Recurrence(fold, s1[..i], s2[..j]);
    if 0 < i && 0 < j {
      assert Front(s1[..i]) == s1[..i - 1] && Front(s2[..j]) == s2[..j - 1];
    }
  }

  method Levenshtein(fold: char -> string, s1: string, s2: string) returns (r: nat)
    ensures r == Distance(fold, s1, s2)
  {
    var m, n := |s1|, |s2|;
    var d := new nat[m + 1, n + 1];
    for i := 0 to m + 1
      invariant forall k :: 0 <= k < i ==> d[k, 0] == Cell(fold, s1, s2, k, 0)
    {
      CellRecurrence(fold, s1, s2, i, 0);
      d[i, 0] := i;
    }
    for j := 0 to n + 1
      invariant forall k :: 0 <= k <= m ==> d[k, 0] == Cell(fold, s1, s2, k, 0)
      invariant forall k :: 0 <= k < j ==> d[0, k] == Cell(fold, s1, s2, 0, k)
    {
      CellRecurrence(fold, s1, s2, 0, j);
      d[0, j] := j;
    }
    for i := 1 to m + 1
      invariant forall k :: 0 <= k <= m ==> d[k, 0] == Cell(fold, s1, s2, k, 0)
      invariant forall a, b :: 0 <= a < i && 0 <= b <= n ==> d[a, b] == Cell(fold, s1, s2, a, b)
    {
      for j := 1 to n + 1
        invariant forall k :: 0 <= k <= m ==> d[k, 0] == Cell(fold, s1, s2, k, 0)
        invariant forall a, b :: 0 <= a < i && 0 <= b <= n ==> d[a, b] == Cell(fold, s1, s2, a, b)
        invariant forall b :: 0 <= b < j ==> d[i, b] == Cell(fold, s1, s2, i, b)
      {
        var cost := if fold(s1[i - 1]) == fold(s2[j - 1]) then 0 else 1;
        CellRecurrence(fold, s1, s2, i, j);
        d[i, j] := Min3(d[i - 1, j] + 1, d[i, j - 1] + 1, d[i - 1, j - 1] + cost);
      }
    }
    r := d[m, n];
    assert s1[..m] == s1 && s2[..n] == s2;
  }

  // ---------- A metric up to folding ----------

  lemma {:induction false} LengthBounds(fold: char -> string, s: string, t: string)
    ensures |s| - |t| <= Distance(fold, s, t)
    ensures |t| - |s| <= Distance(fold, s, t)
    ensures Distance(fold, s, t) <= if |s| <= |t| then |t| else |s|
    decreases |s| + |t|
  {
    if |s| > 0 && |t| > 0 {
      LengthBounds(fold, Front(s), t);
      LengthBounds(fold, s, Front(t));
      LengthBounds(fold, Front(s), Front(t));
    }
  }

  lemma {:induction false} ZeroIffSameFolded(fold: char -> string, s: string, t: string)
    ensures Distance(fold, s, t) == 0 <==> SameFolded(fold, s, t)
    decreases |s|
  {
    if |s| > 0 && |t| > 0 {
      var f, g := Front(s), Front(t);
      ZeroIffSameFolded(fold, f, g);
      assert SameFolded(fold, s, t) <==> SameFolded(fold, f, g) && fold(Last(s)) == fold(Last(t)) by {
        assert s == f + [Last(s)] && t == g + [Last(t)];
        if SameFolded(fold, s, t) {
          forall i | 0 <= i < |f| ensures fold(f[i]) == fold(g[i]) {
            assert f[i] == s[i] && g[i] == t[i];
          }
        }
      }
    }
  }

  lemma {:induction false} Symmetric(fold: char -> string, s: string, t: string)
    ensures Distance(fold, s, t) == Distance(fold, t, s)
    decreases |s| + |t|
  {
    if |s| > 0 && |t| > 0 {
      Symmetric(fold, Front(s), t);
      Symmetric(fold, s, Front(t));
      Symmetric(fold, Front(s), Front(t));
    }
  }

  lemma {:induction false} Triangle(fold: char -> string, a: string, b: string, c: string)
    ensures Distance(fold, a, c) <= Distance(fold, a, b) + Distance(fold, b, c)
    decreases |a| + |b| + |c|
  {
    hide Distance;
    Recurrence(fold, a, b);
    Recurrence(fold, b, c);
    Recurrence(fold, a, c);
    if |a| == 0 || |b| == 0 || |c| == 0 {
      LengthBounds(fold, a, b);
      LengthBounds(fold, b, c);
      LengthBounds(fold, a, c);
    } else {
      Triangle(fold, Front(a), b, c);
      Triangle(fold, a, b, Front(c));
      Triangle(fold, a, Front(b), c);
      Triangle(fold, a, Front(b), Front(c));
      Triangle(fold, Front(a), Front(b), c);
      Triangle(fold, Front(a), Front(b), Front(c));
    }
  }

  // ---------- Edit scripts ----------

  /** One edit of a string at a position. */
  datatype Edit = Insert(pos: nat, c: char) | Delete(pos: nat) | Substitute(pos: nat, c: char)

  function Apply(e: Edit, s: string): Option<string> {
    match e
    case Insert(p, c) => if p <= |s| then Some(s[..p] + [c] + s[p..]) else None
    case Delete(p) => if p < |s| then Some(s[..p] + s[p + 1..]) else None
    case Substitute(p, c) => if p < |s| then Some(s[..p] + [c] + s[p + 1..]) else None
  }

  function Run(script: seq<Edit>, s: string): Option<string> {
    if script == [] then Some(s)
    else
      var u := Apply(script[0], s);
      if u.None? then None else Run(script[1..], u.value)
  }

  predicate Reaches(fold: char -> string, script: seq<Edit>, s: string, t: string) {
    var u := Run(script, s);
    u.Some? && SameFolded(fold, u.value, t)
  }

  /** A common tail never adds to the distance. */
  lemma {:induction false} CommonTail(fold: char -> string, s: string, t: string, x: string)
    ensures Distance(fold, s + x, t + x) <= Distance(fold, s, t)
    decreases |x|
  {
    if |x| == 0 {
      assert s + x == s && t + x == t;
    } else {
      CommonTail(fold, s, t, Front(x));
      assert Front(s + x) == s + Front(x) && Front(t + x) == t + Front(x);
      assert Last(s + x) == Last(t + x) == Last(x);
    }
  }

  /** Each choice of the recurrence is an upper bound, also at the edges of the table. */
  lemma ChoicesBound(fold: char -> string, s: string, t: string)
    ensures |s| > 0 ==> Distance(fold, s, t) <= Distance(fold, Front(s), t) + 1
    ensures |t| > 0 ==> Distance(fold, s, t) <= Distance(fold, s, Front(t)) + 1
    ensures |s| > 0 && |t| > 0 ==> Distance(fold, s, t) <= Distance(fold, Front(s), Front(t)) + 1
  {
    hide Distance;
    Recurrence(fold, s, t);
    if |s| > 0 && |t| == 0 {
      Recurrence(fold, Front(s), t);
    }
    if |s| == 0 && |t| > 0 {
      Recurrence(fold, s, Front(t));
    }
  }

  /** Replacing at most one character by at most one character, between a fixed head and a fixed tail. */
  lemma OneEditInContext(fold: char -> string, p: string, c: string, d: string, x: string)
    requires |c| <= 1 && |d| <= 1
    ensures Distance(fold, p + c + x, p + d + x) <= 1
  {
    hide Distance;
    var u, v := p + c, p + d;
    CommonTail(fold, u, v, x);
    assert Distance(fold, u, v) <= 1 by {
      ZeroIffSameFolded(fold, p, p);
      ChoicesBound(fold, u, v);
      assert if c == "" then u == p else Front(u) == p;
      assert if d == "" then v == p else Front(v) == p;
    }
  }

  lemma OneEditCostsAtMostOne(fold: char -> string, e: Edit, s: string)
    requires Apply(e, s).Some?
    ensures Distance(fold, s, Apply(e, s).value) <= 1
  {
    hide Distance;
    var c := if e.Insert? then "" else [s[e.pos]];
    var d := if e.Delete? then "" else [e.c];
    var x := s[e.pos + |c|..];
    OneEditInContext(fold, s[..e.pos], c, d, x);
    assert s[..e.pos] + c + x == s;
    assert s[..e.pos] + d + x == Apply(e, s).value;
  }

  /** No script reaching `t` is shorter than the distance. */
  lemma {:induction false} NoScriptIsShorter(fold: char -> string, script: seq<Edit>, s: string, t: string)
    requires Reaches(fold, script, s, t)
    ensures Distance(fold, s, t) <= |script|
    decreases |script|
  {
    if script == [] {
      ZeroIffSameFolded(fold, s, t);
    } else {
      var u := Apply(script[0], s).value;
      OneEditCostsAtMostOne(fold, script[0], s);
      NoScriptIsShorter(fold, script[1..], u, t);
      Triangle(fold, s, u, t);
    }
  }

  lemma {:induction false} RunAppend(a: seq<Edit>, b: seq<Edit>, s: string)
    requires Run(a, s).Some?
    ensures Run(a + b, s) == Run(b, Run(a, s).value)
    decreases |a|
  {
    if a == [] {
      assert a + b == b;
    } else {
      assert (a + b)[0] == a[0] && (a + b)[1..] == a[1..] + b;
      RunAppend(a[1..], b, Apply(a[0], s).value);
    }
  }

  /** A script that works on `s` works on the front of any longer string. */
  lemma {:induction false} RunOnFront(script: seq<Edit>, s: string, x: string)
    requires Run(script, s).Some?
    ensures Run(script, s + x) == Some(Run(script, s).value + x)
    decreases |script|
  {
    if script != [] {
      var e := script[0];
      var u := Apply(e, s).value;
      assert Apply(e, s + x) == Some(u + x) by {
        assert (s + x)[..e.pos] == s[..e.pos];
        match e
        case Insert(p, c) =>
          assert (s + x)[p..] == s[p..] + x;
          assert s[..p] + [c] + (s[p..] + x) == u + x;
        case Delete(p) =>
          assert (s + x)[p + 1..] == s[p + 1..] + x;
          assert s[..p] + (s[p + 1..] + x) == u + x;
        case Substitute(p, c) =>
          assert (s + x)[p + 1..] == s[p + 1..] + x;
          assert s[..p] + [c] + (s[p + 1..] + x) == u + x;
      }
      RunOnFront(script[1..], u, x);
    }
  }

  /** The script read off the recurrence. */
  function BestScript(fold: char -> string, s: string, t: string): seq<Edit>
    decreases |s| + |t|
  {
    if |s| == 0 && |t| == 0 then []
    else if |t| == 0 || (|s| > 0 && Distance(fold, s, t) == Distance(fold, Front(s), t) + 1) then
      [Delete(|s| - 1)] + BestScript(fold, Front(s), t)
    else if |s| == 0 || Distance(fold, s, t) == Distance(fold, s, Front(t)) + 1 then
      BestScript(fold, s, Front(t)) + [Insert(|t| - 1, Last(t))]
    else if Cost(fold, Last(s), Last(t)) == 0 then BestScript(fold, Front(s), Front(t))
    else BestScript(fold, Front(s), Front(t)) + [Substitute(|t| - 1, Last(t))]
  }

  /** Fold-equality of two strings with the same front, and a last character added to each. */
  lemma SameFoldedSnoc(fold: char -> string, s: string, t: string, c: char, d: char)
    requires SameFolded(fold, s, t) && fold(c) == fold(d)
    ensures SameFolded(fold, s + [c], t + [d])
  {
  }

  lemma DeleteThenReaches(fold: char -> string, script: seq<Edit>, s: string, t: string)
    requires |s| > 0 && Reaches(fold, script, Front(s), t)
    ensures Reaches(fold, [Delete(|s| - 1)] + script, s, t)
  {
    assert s[..|s| - 1] + s[|s|..] == Front(s);
    assert ([Delete(|s| - 1)] + script)[1..] == script;
  }

  lemma ReachesThenInsert(fold: char -> string, script: seq<Edit>, s: string, t: string)
    requires |t| > 0 && Reaches(fold, script, s, Front(t))
    ensures Reaches(fold, script + [Insert(|t| - 1, Last(t))], s, t)
  {
    var u, e := Run(script, s).value, Insert(|t| - 1, Last(t));
    RunAppend(script, [e], s);
    assert u[..|t| - 1] + [Last(t)] + u[|t| - 1..] == u + [Last(t)];
    assert Run([e], u) == Run([], u + [Last(t)]);
    SameFoldedSnoc(fold, u, Front(t), Last(t), Last(t));
    assert Front(t) + [Last(t)] == t;
  }

  lemma ReachesOnLongerStrings(fold: char -> string, script: seq<Edit>, s: string, t: string)
    requires |s| > 0 && |t| > 0 && Reaches(fold, script, Front(s), Front(t))
    ensures Cost(fold, Last(s), Last(t)) == 0 ==> Reaches(fold, script, s, t)
    ensures Reaches(fold, script + [Substitute(|t| - 1, Last(t))], s, t)
  {
    var u, e := Run(script, Front(s)).value, Substitute(|t| - 1, Last(t));
    RunOnFront(script, Front(s), [Last(s)]);
    assert Front(s) + [Last(s)] == s && Front(t) + [Last(t)] == t;
    var w := u + [Last(s)];
    if Cost(fold, Last(s), Last(t)) == 0 {
      SameFoldedSnoc(fold, u, Front(t), Last(s), Last(t));
    }
    RunAppend(script, [e], s);
    assert w[..|t| - 1] + [Last(t)] + w[|t|..] == u + [Last(t)];
    assert Run([e], w) == Run([], u + [Last(t)]);
    SameFoldedSnoc(fold, u, Front(t), Last(t), Last(t));
  }

  lemma {:induction false} BestScriptReaches(fold: char -> string, s: string, t: string)
    ensures Reaches(fold, BestScript(fold, s, t), s, t)
    ensures |BestScript(fold, s, t)| == Distance(fold, s, t)
    decreases |s| + |t|
  {
    hide Distance;
    Recurrence(fold, s, t);
    if |s| == 0 && |t| == 0 {
    } else if |t| == 0 || (|s| > 0 && Distance(fold, s, t) == Distance(fold, Front(s), t) + 1) {
      Recurrence(fold, Front(s), t);
      BestScriptReaches(fold, Front(s), t);
      DeleteThenReaches(fold, BestScript(fold, Front(s), t), s, t);
    } else if |s| == 0 || Distance(fold, s, t) == Distance(fold, s, Front(t)) + 1 {
      Recurrence(fold, s, Front(t));
      BestScriptReaches(fold, s, Front(t));
      ReachesThenInsert(fold, BestScript(fold, s, Front(t)), s, t);
    } else {
      BestScriptReaches(fold, Front(s), Front(t));
      ReachesOnLongerStrings(fold, BestScript(fold, Front(s), Front(t)), s, t);
    }
  }

  /** The distance is the least length of a script that turns `s` into a string fold-equal to `t`. */
  lemma DistanceIsLeastScript(fold: char -> string, s: string, t: string)
    ensures exists script :: Reaches(fold, script, s, t) && |script| == Distance(fold, s, t)
    ensures forall script :: Reaches(fold, script, s, t) ==> Distance(fold, s, t) <= |script|
  {
    BestScriptReaches(fold, s, t);
    forall script | Reaches(fold, script, s, t) ensures Distance(fold, s, t) <= |script| {
      NoScriptIsShorter(fold, script, s, t);
    }
  }

  // ---------- The penny-drop decision ----------

  const MAX_EDITS: nat := 3

  /** JavaScript `a || b || ''` on possibly null strings. */
  function FirstNonEmpty(names: seq<Option<string>>): string {
    if names == [] then ""
    else if names[0].Some? && names[0].value != "" then names[0].value
    else FirstNonEmpty(names[1..])
  }

  /** The first name if there is one, or else the second, or else the empty string. */
  lemma NamesTried(a: Option<string>, b: Option<string>)
    ensures FirstNonEmpty([a, b]) == if a.GetOr("") != "" then a.GetOr("") else b.GetOr("")
    ensures FirstNonEmpty([a]) == a.GetOr("")
  {
    assert [a, b][1..] == [b] && [b][1..] == [] && [a][1..] == [];
    assert FirstNonEmpty([b]) == b.GetOr("");
  }

  ghost predicate WithinEdits(fold: char -> string, s: string, t: string, k: nat) {
    exists script :: Reaches(fold, script, s, t) && |script| <= k
  }

  lemma WithinEditsIffDistance(fold: char -> string, s: string, t: string, k: nat)
    ensures WithinEdits(fold, s, t, k) <==> Distance(fold, s, t) <= k
  {
    DistanceIsLeastScript(fold, s, t);
  }

  datatype PennyDrop = SellerNotFound | Checked(bankVerified: bool)

  /** The constants are the columns the check reads and never writes. */
  class Tenant {
    const legalBusinessName: Option<string>
    const companyName: Option<string>
    const authorizedSignatoryName: Option<string>
    var bankAccountEncrypted: string
    var bankIfsc: string
    var bankHolderName: string
    var bankVerified: bool

    constructor (legal: Option<string>, company: Option<string>, signatory: Option<string>)
      ensures legalBusinessName == legal && companyName == company && authorizedSignatoryName == signatory
      ensures !bankVerified
    {
      legalBusinessName, companyName, authorizedSignatoryName := legal, company, signatory;
      bankAccountEncrypted, bankIfsc, bankHolderName, bankVerified := "", "", "", false;
    }
  }

  /**
   `encrypted` is the already encrypted account number.  The tenant is verified when at most three edits
   turn the holder into the legal name, or the company name if there is no legal name, or into the
   signatory's name; a name that is not on file is the empty string.
   */
  method VerifyBankPennyDrop(fold: char -> string, tenant: Tenant?, encrypted: string, ifsc: string, holder: string)
    returns (r: PennyDrop)
    modifies tenant
    ensures tenant == null <==> r.SellerNotFound?
    ensures tenant != null ==>
      && r.bankVerified == tenant.bankVerified
      && tenant.bankAccountEncrypted == encrypted && tenant.bankIfsc == ifsc && tenant.bankHolderName == holder
    ensures tenant != null ==>
      var legal, company := tenant.legalBusinessName.GetOr(""), tenant.companyName.GetOr("");
      (tenant.bankVerified <==>
        || (legal != "" && WithinEdits(fold, holder, legal, 3))
        || (legal == "" && WithinEdits(fold, holder, company, 3))
        || WithinEdits(fold, holder, tenant.authorizedSignatoryName.GetOr(""), 3))
  {
    hide WithinEdits;
    hide Distance;
    if tenant == null {
      return SellerNotFound;
    }
    NamesTried(tenant.legalBusinessName, tenant.companyName);
    NamesTried(tenant.authorizedSignatoryName, None);
    hide FirstNonEmpty;
    var target1 := FirstNonEmpty([tenant.legalBusinessName, tenant.companyName]);
    var target2 := FirstNonEmpty([tenant.authorizedSignatoryName]);
    var dist1 := Levenshtein(fold, holder, target1);
    var dist2 := Levenshtein(fold, holder, target2);
    WithinEditsIffDistance(fold, holder, target1, MAX_EDITS);
    WithinEditsIffDistance(fold, holder, target2, MAX_EDITS);
    var isMatch := dist1 <= MAX_EDITS || dist2 <= MAX_EDITS;
    tenant.bankAccountEncrypted, tenant.bankIfsc, tenant.bankHolderName := encrypted, ifsc, holder;
    tenant.bankVerified := isMatch;
    r := Checked(isMatch);
  }

  /** A target name that is not on file is the empty string, and every holder name of at most three units is near it. */
  lemma MissingTargetAcceptsExactlyShortNames(fold: char -> string, holder: string, names: seq<Option<string>>)
    requires forall i :: 0 <= i < |names| ==> names[i].GetOr("") == ""
    ensures WithinEdits(fold, holder, FirstNonEmpty(names), 3) <==> |holder| <= 3
  {
    AllMissing(names);
    LengthBounds(fold, holder, "");
    WithinEditsIffDistance(fold, holder, "", 3);
  }

  lemma {:induction false} AllMissing(names: seq<Option<string>>)
    requires forall i :: 0 <= i < |names| ==> names[i].GetOr("") == ""
    ensures FirstNonEmpty(names) == ""
    decreases |names|
  {
    if names != [] {
      assert names[0].GetOr("") == "";
      AllMissing(names[1..]);
    }
  }
}
