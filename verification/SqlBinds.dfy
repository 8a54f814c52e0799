/** Bound values and the numbered placeholders that stand for them in a clause text. */
module SqlBinds {
  import opened SqlClause

  datatype Bind =
    | BindBool(b: bool)
    | BindInt(n: int)
    | BindText(s: string)
    | BindTextArray(items: seq<string>)

  function BindValue(b: Bind): SqlValue {
    match b
    case BindBool(b) => VBool(b)
    case BindInt(n) => VInt(n)
    case BindText(s) => VText(s)
    case BindTextArray(items) => VTextArray(items)
  }

  /** The parameters from `$first` on start with the values of these binds. */
  predicate Bound(binds: seq<Bind>, first: nat, params: seq<SqlValue>) {
    && 1 <= first <= |params| - |binds| + 1
    && forall k | 0 <= k < |binds| :: params[first - 1 + k] == BindValue(binds[k])
  }

  lemma BoundSplit(a: seq<Bind>, b: seq<Bind>, first: nat, params: seq<SqlValue>)
    requires Bound(a + b, first, params)
    ensures Bound(a, first, params) && Bound(b, first + |a|, params)
  {
    forall k | 0 <= k < |a| ensures params[first - 1 + k] == BindValue(a[k]) {
      assert (a + b)[k] == a[k];
    }
    forall k | 0 <= k < |b| ensures params[first + |a| - 1 + k] == BindValue(b[k]) {
      assert (a + b)[|a| + k] == b[k];
    }
  }

  /** The placeholder numbers of a text, left to right. */
  function Placeholders(ts: seq<Token>): seq<nat> {
    if ts == [] then []
    else (if ts[0].Placeholder? then [ts[0].index] else []) + Placeholders(ts[1..])
  }

  function Range(first: nat, n: nat): (r: seq<nat>)
    ensures |r| == n && forall k | 0 <= k < n :: r[k] == first + k
  {
    seq(n, k requires 0 <= k < n => first + k)
  }

  lemma {:induction false} PlaceholdersConcat(a: seq<Token>, b: seq<Token>)
    ensures Placeholders(a + b) == Placeholders(a) + Placeholders(b)
  {
    if a == [] {
      assert a + b == b;
    } else {
      var ab := a + b;
      assert ab[0] == a[0] && ab[1..] == a[1..] + b;
      PlaceholdersConcat(a[1..], b);
    }
  }

  /** The placeholders of the first `k` texts, one text after the other. */
  function PlaceholdersUpTo(texts: seq<seq<Token>>, k: nat): seq<nat>
    requires k <= |texts|
  {
    if k == 0 then [] else PlaceholdersUpTo(texts, k - 1) + Placeholders(texts[k - 1])
  }

  lemma PlaceholdersAfterAppend(texts: seq<seq<Token>>, text: seq<Token>)
    ensures PlaceholdersUpTo(texts + [text], |texts| + 1) == PlaceholdersUpTo(texts, |texts|) + Placeholders(text)
  {
    var more := texts + [text];
    assert more[|texts|] == text;
    PlaceholdersOfPrefix(texts, more, |texts|);
    assert PlaceholdersUpTo(more, |more|) == PlaceholdersUpTo(more, |more| - 1) + Placeholders(text);
  }

  lemma {:induction false} PlaceholdersOfPrefix(texts: seq<seq<Token>>, more: seq<seq<Token>>, k: nat)
    requires k <= |texts| && texts <= more
    ensures PlaceholdersUpTo(texts, k) == PlaceholdersUpTo(more, k)
  {
    if k > 0 {
      PlaceholdersOfPrefix(texts, more, k - 1);
    }
  }

  lemma {:induction false} PlaceholdersFromFront(texts: seq<seq<Token>>, k: nat)
    requires 0 < k <= |texts|
    ensures PlaceholdersUpTo(texts, k) == Placeholders(texts[0]) + PlaceholdersUpTo(texts[1..], k - 1)
  {
    if k > 1 {
      PlaceholdersFromFront(texts, k - 1);
      assert texts[1..][k - 2] == texts[k - 1];
    }
  }

  lemma {:induction false} PlaceholdersOfPrefixed(texts: seq<seq<Token>>, sep: Token)
    requires !sep.Placeholder?
    ensures Placeholders(Prefixed(texts, sep)) == PlaceholdersUpTo(texts, |texts|)
  {
    if texts != [] {
      PlaceholdersOfPrefixed(texts[1..], sep);
      PlaceholdersConcat([sep] + texts[0], Prefixed(texts[1..], sep));
      PlaceholdersConcat([sep], texts[0]);
      PlaceholdersFromFront(texts, |texts|);
    }
  }

  lemma PlaceholdersOfJoin(texts: seq<seq<Token>>, sep: Token)
    requires texts != [] && !sep.Placeholder?
    ensures Placeholders(Join(texts, sep)) == PlaceholdersUpTo(texts, |texts|)
  {
    PlaceholdersConcat(texts[0], Prefixed(texts[1..], sep));
    PlaceholdersOfPrefixed(texts[1..], sep);
    PlaceholdersFromFront(texts, |texts|);
  }

  lemma PlaceholdersInParentheses(body: seq<Token>)
    ensures Placeholders([LParen] + body + [RParen]) == Placeholders(body)
  {
    PlaceholdersConcat([LParen] + body, [RParen]);
    PlaceholdersConcat([LParen], body);
  }

  lemma PlaceholdersOfParenthesizedJoin(texts: seq<seq<Token>>, sep: Token)
    requires texts != [] && !sep.Placeholder?
    ensures Placeholders([LParen] + Join(texts, sep) + [RParen]) == PlaceholdersUpTo(texts, |texts|)
  {
    PlaceholdersInParentheses(Join(texts, sep));
    PlaceholdersOfJoin(texts, sep);
  }

  lemma RangeConcat(first: nat, m: nat, n: nat)
    ensures Range(first, m) + Range(first + m, n) == Range(first, m + n)
  {
  }

  lemma PlaceholdersStep(texts: seq<seq<Token>>, text: seq<Token>, first: nat, m: nat, n: nat)
    requires PlaceholdersUpTo(texts, |texts|) == Range(first, m) && Placeholders(text) == Range(first + m, n)
    ensures PlaceholdersUpTo(texts + [text], |texts| + 1) == Range(first, m + n)
  {
    PlaceholdersAfterAppend(texts, text);
    RangeConcat(first, m, n);
  }

  lemma PlaceholdersOfTwo(a: seq<Token>, b: seq<Token>)
    ensures PlaceholdersUpTo([a, b], 2) == Placeholders(a) + Placeholders(b)
  {
    assert PlaceholdersUpTo([a, b], 1) == PlaceholdersUpTo([a, b], 0) + Placeholders(a);
  }

  /** Two texts joined inside parentheses. */
  lemma PairPlaceholders(a: seq<Token>, b: seq<Token>)
    ensures Placeholders([LParen] + Join([a, b], AndWord) + [RParen]) == Placeholders(a) + Placeholders(b)
  {
    PlaceholdersOfParenthesizedJoin([a, b], AndWord);
    PlaceholdersOfTwo(a, b);
  }

  lemma {:induction false} PlaceholderFree(ts: seq<Token>)
    requires forall i | 0 <= i < |ts| :: !ts[i].Placeholder?
    ensures Placeholders(ts) == []
  {
    if ts != [] {
      PlaceholderFree(ts[1..]);
    }
  }

  lemma OnePlaceholder(ts: seq<Token>, k: nat)
    requires k < |ts| && ts[k].Placeholder?
    requires forall i | 0 <= i < |ts| && i != k :: !ts[i].Placeholder?
    ensures Placeholders(ts) == [ts[k].index]
  {
    assert ts == ts[..k] + ([ts[k]] + ts[k + 1..]);
    PlaceholdersConcat(ts[..k], [ts[k]] + ts[k + 1..]);
    PlaceholdersConcat([ts[k]], ts[k + 1..]);
    PlaceholderFree(ts[..k]);
    PlaceholderFree(ts[k + 1..]);
  }
}
