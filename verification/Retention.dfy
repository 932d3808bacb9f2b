/**
 The batched purge of old audit-log rows, and which rows it may take.  Nothing else touches the table
 during a purge.  `fold` stands for the case folding of ILIKE.

 The exempt conditions stand in a list under Sequelize's Op.not; what that list means is the library's
 business, so the model takes both readings: none of the conditions (what the comments intend) and not
 all of them.
 */
module Retention {
  type Id = nat

  datatype LogRow = LogRow(action: string, createdAt: int)

  datatype ListNot = NoneOf | NotAllOf

  const EXEMPT_PREFIXES: seq<string> :=
    ["wallet_", "invoice_", "subscription_", "recharge_", "login", "impersonation_", "password_reset", "2fa_"]

  // ---------- Which rows are exempt ----------

  /** The ILIKE operator: % matches any text and _ any one character. */
  predicate ILike(fold: char -> char, pattern: string, text: string)
    decreases |pattern| + |text|
  {
    if |pattern| == 0 then |text| == 0
    else if pattern[0] == '%' then
      ILike(fold, pattern[1..], text) || (|text| > 0 && ILike(fold, pattern, text[1..]))
    else
      && |text| > 0
      && (pattern[0] == '_' || fold(pattern[0]) == fold(text[0]))
      && ILike(fold, pattern[1..], text[1..])
  }

  predicate StartsLike(fold: char -> char, prefix: string, text: string) {
    |prefix| <= |text| && forall i :: 0 <= i < |prefix| ==> prefix[i] == '_' || fold(prefix[i]) == fold(text[i])
  }

  lemma {:induction false} PercentMatchesAll(fold: char -> char, text: string)
    ensures ILike(fold, "%", text)
    decreases |text|
  {
    assert "%"[1..] == "";
    if |text| > 0 {
      PercentMatchesAll(fold, text[1..]);
    }
  }

  /** An exempt pattern matches exactly the actions that agree with its prefix outside the underscores. */
  lemma {:induction false} PatternIsPrefix(fold: char -> char, prefix: string, text: string)
    requires '%' !in prefix
    ensures ILike(fold, prefix + "%", text) <==> StartsLike(fold, prefix, text)
    decreases |prefix|
  {
    if |prefix| == 0 {
      assert prefix + "%" == "%";
      PercentMatchesAll(fold, text);
    } else {
      assert prefix[0] in prefix;
      assert (prefix + "%")[1..] == prefix[1..] + "%";
      if |text| > 0 {
        PatternIsPrefix(fold, prefix[1..], text[1..]);
        assert StartsLike(fold, prefix, text) <==>
          (prefix[0] == '_' || fold(prefix[0]) == fold(text[0])) && StartsLike(fold, prefix[1..], text[1..]) by {
          assert prefix == [prefix[0]] + prefix[1..] && text == [text[0]] + text[1..];
          if StartsLike(fold, prefix, text) {
            forall i | 0 <= i < |prefix[1..]|
              ensures prefix[1..][i] == '_' || fold(prefix[1..][i]) == fold(text[1..][i])
            {
              assert prefix[1..][i] == prefix[i + 1] && text[1..][i] == text[i + 1];
            }
          }
        }
      }
    }
  }

  predicate Exempt(fold: char -> char, row: LogRow, financialCutoff: int, i: nat)
    requires i < |EXEMPT_PREFIXES|
  {
    ILike(fold, EXEMPT_PREFIXES[i] + "%", row.action) && row.createdAt >= financialCutoff
  }

  predicate Passes(fold: char -> char, row: LogRow, financialCutoff: int, reading: ListNot) {
    match reading
    case NoneOf => forall i :: 0 <= i < |EXEMPT_PREFIXES| ==> !Exempt(fold, row, financialCutoff, i)
    case NotAllOf => exists i :: 0 <= i < |EXEMPT_PREFIXES| && !Exempt(fold, row, financialCutoff, i)
  }

  predicate Eligible(fold: char -> char, row: LogRow, cutoff: int, financialCutoff: int, reading: ListNot) {
    row.createdAt < cutoff && Passes(fold, row, financialCutoff, reading)
  }

  predicate IsProtected(fold: char -> char, action: string) {
    exists i :: 0 <= i < |EXEMPT_PREFIXES| && StartsLike(fold, EXEMPT_PREFIXES[i], action)
  }

  lemma ExemptIffProtected(fold: char -> char, row: LogRow, financialCutoff: int, i: nat)
    requires i < |EXEMPT_PREFIXES|
    ensures Exempt(fold, row, financialCutoff, i) <==>
      StartsLike(fold, EXEMPT_PREFIXES[i], row.action) && row.createdAt >= financialCutoff
  {
    PatternIsPrefix(fold, EXEMPT_PREFIXES[i], row.action);
  }

  /** The protected actions, prefix by prefix. */
  lemma ProtectedIff(fold: char -> char, action: string)
    ensures IsProtected(fold, action) <==>
      || StartsLike(fold, "wallet_", action) || StartsLike(fold, "invoice_", action)
      || StartsLike(fold, "subscription_", action) || StartsLike(fold, "recharge_", action)
      || StartsLike(fold, "login", action) || StartsLike(fold, "impersonation_", action)
      || StartsLike(fold, "password_reset", action) || StartsLike(fold, "2fa_", action)
  {
    hide StartsLike;
    var p := EXEMPT_PREFIXES;
    assert p[0] == "wallet_" && p[1] == "invoice_" && p[2] == "subscription_" && p[3] == "recharge_";
    assert p[4] == "login" && p[5] == "impersonation_" && p[6] == "password_reset" && p[7] == "2fa_";
  }

  /** Read as none-of: an unprotected row goes at the general cutoff, a protected one only once it is older than both cutoffs. */
  lemma EligibleWhenNoneOf(fold: char -> char, row: LogRow, cutoff: int, financialCutoff: int)
    ensures Eligible(fold, row, cutoff, financialCutoff, NoneOf) <==>
      row.createdAt < cutoff && (IsProtected(fold, row.action) ==> row.createdAt < financialCutoff)
  {
    forall i | 0 <= i < |EXEMPT_PREFIXES|
      ensures Exempt(fold, row, financialCutoff, i) <==>
        StartsLike(fold, EXEMPT_PREFIXES[i], row.action) && row.createdAt >= financialCutoff
    {
      ExemptIffProtected(fold, row, financialCutoff, i);
    }
    if IsProtected(fold, row.action) {
      var i :| 0 <= i < |EXEMPT_PREFIXES| && StartsLike(fold, EXEMPT_PREFIXES[i], row.action);
      assert Exempt(fold, row, financialCutoff, i) <==> row.createdAt >= financialCutoff;
    }
  }

  /** Read as not-all-of, the list protects nothing: no action starts both with wallet and with invoice. */
  lemma EligibleWhenNotAllOf(fold: char -> char, row: LogRow, cutoff: int, financialCutoff: int)
    requires fold('w') != fold('i')
    ensures Eligible(fold, row, cutoff, financialCutoff, NotAllOf) <==> row.createdAt < cutoff
  {
    ExemptIffProtected(fold, row, financialCutoff, 0);
    ExemptIffProtected(fold, row, financialCutoff, 1);
    assert EXEMPT_PREFIXES[0][0] == 'w' && EXEMPT_PREFIXES[1][0] == 'i';
    assert !Exempt(fold, row, financialCutoff, 0) || !Exempt(fold, row, financialCutoff, 1);
  }

  /** The underscore of a prefix is itself a wildcard: an action with any other character there is kept too. */
  lemma UnderscoreIsWildcard(fold: char -> char, c: char)
    ensures IsProtected(fold, "wallet" + [c])
  {
    assert StartsLike(fold, EXEMPT_PREFIXES[0], "wallet" + [c]);
  }

  // ---------- The purge ----------

  function EligibleIds(fold: char -> char, rows: map<Id, LogRow>, cutoff: int, financialCutoff: int, reading: ListNot): set<Id> {
    set id | id in rows && Eligible(fold, rows[id], cutoff, financialCutoff, reading)
  }

  class AuditLogTable {
    var rows: map<Id, LogRow>

    constructor (initial: map<Id, LogRow>)
      ensures rows == initial
    {
      rows := initial;
    }

    /** A query with a limit and no order: any matching rows, as many as there are up to the limit. */
    method FindEligible(fold: char -> char, cutoff: int, financialCutoff: int, reading: ListNot, limit: nat)
      returns (ids: set<Id>)
      ensures var all := EligibleIds(fold, rows, cutoff, financialCutoff, reading);
        ids <= all && |ids| == if |all| <= limit then |all| else limit
    {
      ids := {};
      var rest := EligibleIds(fold, rows, cutoff, financialCutoff, reading);
      ghost var all := rest;
      while |ids| < limit && rest != {}
        invariant ids !! rest && ids + rest == all && |ids| <= limit
        decreases |rest|
      {
        var id :| id in rest;
        ids, rest := ids + {id}, rest - {id};
      }
      assert |all| == |ids| + |rest|;
    }

    method Destroy(ids: set<Id>) returns (count: nat)
      requires ids <= rows.Keys
      modifies this
      ensures rows == old(rows) - ids && count == |ids|
    {
      rows := rows - ids;
      count := |ids|;
    }

    /** The do-while loop; `rounds` counts its queries. */
    method DeleteOld(fold: char -> char, cutoff: int, financialCutoff: int, batchSize: nat, reading: ListNot)
      returns (totalDeleted: nat, ghost rounds: nat)
      modifies this
      ensures var all := old(EligibleIds(fold, rows, cutoff, financialCutoff, reading));
        if batchSize == 0 then rows == old(rows) && totalDeleted == 0
        else
          && rows == old(rows) - all
          && totalDeleted == |all|
          && rounds == Rounds(|all|, batchSize)
      ensures batchSize > 0 && reading == NoneOf ==>
        Purged(fold, old(rows), rows, cutoff, financialCutoff, totalDeleted)
    {
      DeletedIds(fold, rows, cutoff, financialCutoff);
      hide EligibleIds;
      hide Purged;
      ghost var all := EligibleIds(fold, rows, cutoff, financialCutoff, reading);
      ghost var removed: set<Id> := {};
      totalDeleted, rounds := 0, 0;
      EligibleAreRows(fold, rows, cutoff, financialCutoff, reading);
      assert rows - removed == rows;
      while true
        invariant removed <= all && rows == old(rows) - removed
        invariant batchSize == 0 ==> removed == {}
        invariant totalDeleted == |removed| <= |all|
        invariant batchSize > 0 ==> rounds + Rounds(|all| - |removed|, batchSize) == Rounds(|all|, batchSize)
        decreases |all - removed|
      {
        EligibleAfterRemoval(fold, old(rows), removed, cutoff, financialCutoff, reading);
        var ids := FindEligible(fold, cutoff, financialCutoff, reading, batchSize);
        SplitCard(all, removed, ids);
        rounds := rounds + 1;
        if |ids| == 0 {
          assert removed + ids == removed;
          assert batchSize > 0 ==> removed == all;
          break;
        }
        var deleted := Destroy(ids);
        assert (old(rows) - removed) - ids == old(rows) - (removed + ids);
        assert rows == old(rows) - (removed + ids);
        removed := removed + ids;
        totalDeleted := totalDeleted + deleted;
        if deleted != batchSize {
          assert removed == all;
          break;
        }
      }
    }
  }

  /** What stays is what is younger than the general cutoff, and what is protected and younger than the financial one, unchanged; `count` rows go. */
  ghost predicate Purged(fold: char -> char, before: map<Id, LogRow>, after: map<Id, LogRow>, cutoff: int, financialCutoff: int, count: nat) {
    && count == |before| - |after|
    && (forall id :: id in after ==> id in before && after[id] == before[id])
    && (forall id :: id in before ==>
         (id in after <==>
           || before[id].createdAt >= cutoff
           || (IsProtected(fold, before[id].action) && before[id].createdAt >= financialCutoff)))
  }

  lemma DeletedIds(fold: char -> char, rows: map<Id, LogRow>, cutoff: int, financialCutoff: int)
    ensures var all := EligibleIds(fold, rows, cutoff, financialCutoff, NoneOf);
      Purged(fold, rows, rows - all, cutoff, financialCutoff, |all|)
  {
    var all := EligibleIds(fold, rows, cutoff, financialCutoff, NoneOf);
    assert rows.Keys == all + (rows - all).Keys;
    assert |rows.Keys| == |rows| && |(rows - all).Keys| == |rows - all|;
    hide IsProtected;
    hide Eligible;
    forall id | id in rows
      ensures id !in all <==> rows[id].createdAt >= cutoff || (IsProtected(fold, rows[id].action) && rows[id].createdAt >= financialCutoff)
    {
      EligibleWhenNoneOf(fold, rows[id], cutoff, financialCutoff);
    }
  }

  lemma EligibleAreRows(fold: char -> char, rows: map<Id, LogRow>, cutoff: int, financialCutoff: int, reading: ListNot)
    ensures EligibleIds(fold, rows, cutoff, financialCutoff, reading) <= rows.Keys
  {
  }

  lemma EligibleAfterRemoval(fold: char -> char, rows: map<Id, LogRow>, removed: set<Id>, cutoff: int, financialCutoff: int, reading: ListNot)
    ensures EligibleIds(fold, rows - removed, cutoff, financialCutoff, reading)
      == EligibleIds(fold, rows, cutoff, financialCutoff, reading) - removed
  {
  }

  /** Sizes when a batch is taken out of what is left. */
  lemma SplitCard(all: set<Id>, removed: set<Id>, ids: set<Id>)
    requires removed <= all && ids <= all - removed
    ensures |removed + ids| == |removed| + |ids|
    ensures |all - removed| == |all| - |removed| && |all - (removed + ids)| == |all| - |removed| - |ids|
    ensures |ids| == |all - removed| ==> removed + ids == all
  {
  }

  /** Queries needed for n eligible rows: a short batch is the last. */
  function Rounds(n: nat, batchSize: nat): nat
    requires batchSize > 0
    decreases n
  {
    if n < batchSize then 1 else 1 + Rounds(n - batchSize, batchSize)
  }

  /** The number of queries is n / batchSize, rounded down, plus one. */
  lemma {:induction false} RoundsIsQuotientPlusOne(n: nat, batchSize: nat)
    requires batchSize > 0
    ensures Rounds(n, batchSize) > 0
    ensures (Rounds(n, batchSize) - 1) * batchSize <= n < Rounds(n, batchSize) * batchSize
    decreases n
  {
    if n >= batchSize {
      RoundsIsQuotientPlusOne(n - batchSize, batchSize);
    }
  }
}
