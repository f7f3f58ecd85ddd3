/**
 * Normalisation of the arm and mode labels read from the summary page:
 * `string.Join(" ", text.Replace(":", "").Split(new[] { '\n', '\r', ' ' },
 * StringSplitOptions.RemoveEmptyEntries))`.
 */
module Labels {
  import opened Wrappers
  import opened Query

  /** The characters the label text is split on. */
  predicate IsSeparator(c: char) {
    c == '\n' || c == '\r' || c == ' '
  }

  /** A non-empty token free of separators: one entry of a split with RemoveEmptyEntries. */
  predicate IsWord(t: string) {
    t != [] && forall i :: 0 <= i < |t| ==> !IsSeparator(t[i])
  }

  /** `s.Replace(":", "")`. */
  function RemoveColons(s: string): (r: string)
    ensures forall c :: c in r <==> c in s && c != ':'
  {
    if s == [] then []
    else (if s[0] == ':' then [] else [s[0]]) + RemoveColons(s[1..])
  }

  /** Length of the leading run of non-separator characters. */
  function RunLength(s: string): (n: nat)
    ensures n <= |s|
    ensures forall i :: 0 <= i < n ==> !IsSeparator(s[i])
    ensures n < |s| ==> IsSeparator(s[n])
  {
    match FindFirst(s, IsSeparator)
    case None => |s|
    case Some(i) => i
  }

  /** `s.Split(separators, StringSplitOptions.RemoveEmptyEntries)`: the maximal separator-free runs, in order. */
  function Tokens(s: string): (toks: seq<string>)
    ensures forall t :: t in toks ==> IsWord(t)
    ensures forall t, c :: t in toks && c in t ==> c in s
    decreases |s|
  {
    if s == [] then []
    else if IsSeparator(s[0]) then Tokens(s[1..])
    else
      var n := RunLength(s);
      [s[..n]] + Tokens(s[n..])
  }

  /** `string.Join(" ", toks)`. */
  function Join(toks: seq<string>): string {
    if toks == [] then []
    else if |toks| == 1 then toks[0]
    else toks[0] + " " + Join(toks[1..])
  }

  /** The shape of a normalised label: no colon or line break, single spaces between words only. */
  predicate IsNormalLabel(r: string) {
    && ':' !in r && '\n' !in r && '\r' !in r
    && (r != [] ==> r[0] != ' ' && r[|r| - 1] != ' ')
    && forall i :: 0 <= i < |r| - 1 ==> !(r[i] == ' ' && r[i + 1] == ' ')
  }

  /** The arm/mode label normalisation of the summary page. */
  function NormalizeLabel(s: string): (r: string)
    ensures IsNormalLabel(r)
  {
    var toks := Tokens(RemoveColons(s));
    JoinShape(toks);
    Join(toks)
  }

  /** The characters of s that are not separators, in order. */
  function Strip(s: string): string {
    if s == [] then []
    else (if IsSeparator(s[0]) then [] else [s[0]]) + Strip(s[1..])
  }

  function Concat(toks: seq<string>): string {
    if toks == [] then [] else toks[0] + Concat(toks[1..])
  }

  lemma {:induction false} StripAppend(a: string, b: string)
    ensures Strip(a + b) == Strip(a) + Strip(b)
  {
    if a == [] {
      assert a + b == b;
    } else {
      assert (a + b)[0] == a[0];
      assert (a + b)[1..] == a[1..] + b;
      StripAppend(a[1..], b);
    }
  }

  lemma {:induction false} StripWord(t: string)
    requires forall i :: 0 <= i < |t| ==> !IsSeparator(t[i])
    ensures Strip(t) == t
  {
    if t != [] {
      StripWord(t[1..]);
    }
  }

  /** Splitting loses no non-separator character and keeps their order. */
  lemma {:induction false} TokensConcat(s: string)
    ensures Concat(Tokens(s)) == Strip(s)
    decreases |s|
  {
    if s == [] {
    } else if IsSeparator(s[0]) {
      TokensConcat(s[1..]);
    } else {
      var n := RunLength(s);
      assert s == s[..n] + s[n..];
      StripAppend(s[..n], s[n..]);
      StripWord(s[..n]);
      TokensConcat(s[n..]);
      var toks := [s[..n]] + Tokens(s[n..]);
      assert toks[0] == s[..n] && toks[1..] == Tokens(s[n..]);
    }
  }

  /** Joining words with single spaces gives a normalised label made of their characters and spaces. */
  lemma {:induction false} JoinShape(toks: seq<string>)
    requires forall t :: t in toks ==> IsWord(t)
    ensures Join(toks) == [] <==> toks == []
    ensures Join(toks) != [] ==> Join(toks)[0] != ' ' && Join(toks)[|Join(toks)| - 1] != ' '
    ensures forall i :: 0 <= i < |Join(toks)| - 1 ==> !(Join(toks)[i] == ' ' && Join(toks)[i + 1] == ' ')
    ensures forall c :: c in Join(toks) && c != ' ' ==> exists t :: t in toks && c in t
  {
    if |toks| == 1 {
      assert toks[0] in toks;
    } else if |toks| > 1 {
      var t, rest := toks[0], toks[1..];
      assert t in toks;
      assert forall u :: u in rest ==> u in toks;
      JoinShape(rest);
      var j := Join(rest);
      var r := t + " " + j;
      assert r == Join(toks);
      assert r[0] == t[0];
      assert r[|r| - 1] == j[|j| - 1];
      forall i | 0 <= i < |r| - 1
        ensures !(r[i] == ' ' && r[i + 1] == ' ')
      {
        if i < |t| {
          assert r[i] == t[i];
        } else if i == |t| {
          assert r[i + 1] == j[0];
        } else {
          assert r[i] == j[i - |t| - 1] && r[i + 1] == j[i - |t|];
        }
      }
      forall c | c in r && c != ' '
        ensures exists u :: u in toks && c in u
      {
        var k :| 0 <= k < |r| && r[k] == c;
        if k < |t| {
          assert c in t;
        } else {
          assert j[k - |t| - 1] == c;
          assert c in j;
        }
      }
    }
  }

  /** A word followed by nothing or by a separator splits off as one token. */
  lemma TokensAfterWord(t: string, rest: string)
    requires IsWord(t) && (rest == [] || IsSeparator(rest[0]))
    ensures Tokens(t + rest) == [t] + Tokens(rest)
  {
    var s := t + rest;
    assert s[0] == t[0];
    assert forall i :: 0 <= i < |t| ==> s[i] == t[i];
    assert |t| < |s| ==> s[|t|] == rest[0];
    assert RunLength(s) == |t|;
    assert s[..|t|] == t && s[|t|..] == rest;
  }

  /** Splitting a label joined from words gives those words back. */
  lemma {:induction false} TokensOfJoin(toks: seq<string>)
    requires forall t :: t in toks ==> IsWord(t)
    ensures Tokens(Join(toks)) == toks
  {
    if toks != [] {
      var t := toks[0];
      assert t in toks;
      if |toks| == 1 {
        TokensAfterWord(t, []);
        assert t + [] == t;
      } else {
        var rest := toks[1..];
        assert forall u :: u in rest ==> u in toks;
        TokensOfJoin(rest);
        var j := Join(rest);
        TokensAfterWord(t, " " + j);
        assert t + " " + j == t + (" " + j);
        assert (" " + j)[1..] == j;
      }
    }
  }

  /** Removing colons from a concatenation removes them from each part: the order of the kept characters is the input's. */
  lemma {:induction false} RemoveColonsAppend(a: string, b: string)
    ensures RemoveColons(a + b) == RemoveColons(a) + RemoveColons(b)
  {
    if a == [] {
      assert a + b == b;
    } else {
      assert (a + b)[0] == a[0];
      assert (a + b)[1..] == a[1..] + b;
      RemoveColonsAppend(a[1..], b);
    }
  }

  /** A single character is dropped exactly when it is a colon. */
  lemma RemoveColonsChar(c: char)
    ensures RemoveColons([c]) == if c == ':' then [] else [c]
  {
  }

  /** Every token of a word alone is the word itself. */
  lemma TokensOfWord(w: string)
    requires IsWord(w)
    ensures Tokens(w) == [w]
  {
    TokensAfterWord(w, []);
    assert w + [] == w;
  }

  /** RunLength is the only position with a separator-free run before it and a separator (or the end) at it. */
  lemma RunLengthIs(s: string, n: nat)
    requires n <= |s|
    requires forall i :: 0 <= i < n ==> !IsSeparator(s[i])
    requires n < |s| ==> IsSeparator(s[n])
    ensures RunLength(s) == n
  {
  }

  /** A non-empty separator-free prefix that ends at a separator or at the end is the first token. */
  lemma TokensLead(s: string, n: nat)
    requires 0 < n <= |s|
    requires forall i :: 0 <= i < n ==> !IsSeparator(s[i])
    requires n < |s| ==> IsSeparator(s[n])
    ensures Tokens(s) == [s[..n]] + Tokens(s[n..])
  {
    RunLengthIs(s, n);
  }

  /** Slicing a concatenation inside its left part. */
  lemma SliceAppend<T>(x: seq<T>, y: seq<T>, k: nat)
    requires k <= |x|
    ensures (x + y)[..k] == x[..k] && (x + y)[k..] == x[k..] + y
  {
  }

  /** The step of TokensAtSeparator past a leading word, given the claim for what follows the word. */
  lemma TokensAtSeparatorStep(a: string, c: char, b: string, n: nat)
    requires IsSeparator(c) && a != [] && !IsSeparator(a[0]) && n == RunLength(a)
    requires Tokens(a[n..] + [c] + b) == Tokens(a[n..]) + Tokens(b)
    ensures Tokens(a + [c] + b) == Tokens(a) + Tokens(b)
  {
    var s := a + [c] + b;
    var w := [a[..n]];
    assert s[n..] == a[n..] + [c] + b && s[..n] == a[..n] by {
      SliceAppend(a, [c] + b, n);
      assert s == a + ([c] + b);
    }
    assert Tokens(s) == w + Tokens(s[n..]) by {
      assert forall i :: 0 <= i < |a| ==> s[i] == a[i];
      assert s[n] == if n < |a| then a[n] else c;
      TokensLead(s, n);
    }
    assert Tokens(a) == w + Tokens(a[n..]) by {
      TokensLead(a, n);
    }
    var ta, tb := Tokens(a[n..]), Tokens(b);
    assert w + (ta + tb) == (w + ta) + tb;
  }

  /** Every separator ends a token: splitting around one splits the two sides independently. */
  lemma {:induction false} TokensAtSeparator(a: string, c: char, b: string)
    requires IsSeparator(c)
    ensures Tokens(a + [c] + b) == Tokens(a) + Tokens(b)
    decreases |a|
  {
    var s := a + [c] + b;
    if a == [] {
      assert s[0] == c && s[1..] == b;
    } else if IsSeparator(a[0]) {
      assert s[0] == a[0] && s[1..] == a[1..] + [c] + b;
      TokensAtSeparator(a[1..], c, b);
    } else {
      var n := RunLength(a);
      TokensAtSeparator(a[n..], c, b);
      TokensAtSeparatorStep(a, c, b, n);
    }
  }

  lemma {:induction false} RemoveColonsIdentity(s: string)
    requires ':' !in s
    ensures RemoveColons(s) == s
  {
    if s != [] {
      assert ':' !in s[1..] by { assert forall c :: c in s[1..] ==> c in s; }
      RemoveColonsIdentity(s[1..]);
    }
  }

  /** The label keeps exactly the words of the colon-free input, in order, and nothing else. */
  lemma NormalizeLabelWords(s: string)
    ensures Tokens(NormalizeLabel(s)) == Tokens(RemoveColons(s))
    ensures Concat(Tokens(NormalizeLabel(s))) == Strip(RemoveColons(s))
  {
    TokensOfJoin(Tokens(RemoveColons(s)));
    TokensConcat(RemoveColons(s));
  }

  /** Normalising a normalised label changes nothing. */
  lemma NormalizeLabelIdempotent(s: string)
    ensures NormalizeLabel(NormalizeLabel(s)) == NormalizeLabel(s)
  {
    var r := NormalizeLabel(s);
    RemoveColonsIdentity(r);
    TokensOfJoin(Tokens(RemoveColons(s)));
  }
}
