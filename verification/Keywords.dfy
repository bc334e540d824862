/** The mathematics of keyword search: keyword occurrences, the words spelled
    by a trie, longest suffixes, and the masking that the filter promises.
    Nothing here mentions an automaton; the class in ACAutomaton.dfy is proved
    against these definitions. */
module Keywords {

  type Word = string

  /** One keyword occurrence, both ends inclusive. */
  datatype Match = Match(first: int, last: int)

  // ---------------------------------------------------------------- naive search

  /** Some keyword occurrence in s covers position k. */
  ghost predicate Covered(keywords: set<Word>, s: Word, k: nat)
  {
    exists i, j :: 0 <= i <= k < j <= |s| && s[i..j] in keywords
  }

  /** The all-substrings filter: the reference the automaton must agree with. */
  ghost function Masked(keywords: set<Word>, s: Word): (r: Word)
    ensures |r| == |s|
  {
    seq(|s|, k requires 0 <= k < |s| => if Covered(keywords, s, k) then '*' else s[k])
  }

  ghost predicate IsSuffix(t: Word, s: Word)
  {
    |t| <= |s| && forall i :: 0 <= i < |t| ==> t[i] == s[|s| - |t| + i]
  }

  /** The last n characters of t are a keyword. */
  ghost predicate EndsWithKeyword(keywords: set<Word>, t: Word, n: nat)
  {
    exists w :: w in keywords && |w| == n && IsSuffix(w, t)
  }

  /** The keywords that end where t ends and are longer than n, longest first. */
  ghost function KeywordsEnding(keywords: set<Word>, t: Word, n: nat): seq<Match>
    decreases |t| - n
  {
    if n >= |t| then []
    else if EndsWithKeyword(keywords, t, n + 1) then KeywordsEnding(keywords, t, n + 1) + [Match(|t| - n - 1, |t| - 1)]
    else KeywordsEnding(keywords, t, n + 1)
  }

  /** Every keyword occurrence inside s[..n], ordered by end and then by start. */
  ghost function Occurrences(keywords: set<Word>, s: Word, n: nat): seq<Match>
    requires n <= |s|
  {
    if n == 0 then [] else Occurrences(keywords, s, n - 1) + KeywordsEnding(keywords, s[..n], 0)
  }

  /** Ranges are listed by end first and start second, and none is listed twice. */
  ghost predicate Before(a: Match, b: Match)
  {
    a.last < b.last || (a.last == b.last && a.first < b.first)
  }

  ghost predicate Ordered(o: seq<Match>)
  {
    forall x, y :: 0 <= x < y < |o| ==> Before(o[x], o[y])
  }

  lemma {:induction false} KeywordsEndingExact(keywords: set<Word>, t: Word, n: nat)
    ensures var o := KeywordsEnding(keywords, t, n);
            Ordered(o) && forall m :: m in o <==>
              0 <= m.first < |t| - n && m.last == |t| - 1 && EndsWithKeyword(keywords, t, |t| - m.first)
    decreases |t| - n
  {
    if n < |t| {
      KeywordsEndingExact(keywords, t, n + 1);
      var longer, shortest := KeywordsEnding(keywords, t, n + 1), Match(|t| - n - 1, |t| - 1);
      forall x | 0 <= x < |longer|
        ensures Before(longer[x], shortest)
      {
        assert longer[x] in longer;
      }
    }
  }

  ghost predicate OccursAt(keywords: set<Word>, s: Word, m: Match)
  {
    0 <= m.first <= m.last < |s| && s[m.first..m.last + 1] in keywords
  }

  lemma EndsWithKeywordAt(keywords: set<Word>, s: Word, m: Match)
    requires 0 <= m.first <= m.last < |s|
    ensures EndsWithKeyword(keywords, s[..m.last + 1], m.last + 1 - m.first) <==> OccursAt(keywords, s, m)
  {
    var w, t := s[m.first..m.last + 1], s[..m.last + 1];
    if v :| v in keywords && |v| == |w| && IsSuffix(v, t) {
      assert v == w;
    }
    assert IsSuffix(w, t);
  }

  lemma OccurrencesAtOneEnd(keywords: set<Word>, s: Word, n: nat)
    requires 0 < n <= |s|
    ensures var o := KeywordsEnding(keywords, s[..n], 0);
            Ordered(o) && forall m :: m in o <==> OccursAt(keywords, s, m) && m.last == n - 1
  {
    KeywordsEndingExact(keywords, s[..n], 0);
    forall m: Match | 0 <= m.first <= m.last == n - 1
      ensures EndsWithKeyword(keywords, s[..n], n - m.first) <==> OccursAt(keywords, s, m)
    {
      EndsWithKeywordAt(keywords, s, m);
    }
  }

  lemma OrderedConcat(a: seq<Match>, b: seq<Match>, last: int)
    requires Ordered(a) && Ordered(b)
    requires (forall m :: m in a ==> m.last < last) && (forall m :: m in b ==> m.last == last)
    ensures Ordered(a + b)
  {
    forall x, y | 0 <= x < |a| && 0 <= y < |b|
      ensures Before(a[x], b[y])
    {
      assert a[x] in a && b[y] in b;
    }
  }

  /** The list holds exactly the keyword occurrences, each once, in order. */
  lemma {:induction false} OccurrencesExact(keywords: set<Word>, s: Word, n: nat)
    requires n <= |s|
    ensures var o := Occurrences(keywords, s, n);
            Ordered(o) && forall m :: m in o <==> OccursAt(keywords, s, m) && m.last < n
  {
    if n > 0 {
      OccurrencesExact(keywords, s, n - 1);
      OccurrencesAtOneEnd(keywords, s, n);
      OrderedConcat(Occurrences(keywords, s, n - 1), KeywordsEnding(keywords, s[..n], 0), n - 1);
    }
  }

  ghost predicate CoveredBy(matches: seq<Match>, k: int)
  {
    exists m :: m in matches && m.first <= k <= m.last
  }

  /** Masking the listed ranges is the all-substrings filter. */
  lemma CoveredByOccurrences(keywords: set<Word>, s: Word, k: nat)
    requires k < |s|
    ensures Covered(keywords, s, k) <==> CoveredBy(Occurrences(keywords, s, |s|), k)
  {
    OccurrencesExact(keywords, s, |s|);
    if Covered(keywords, s, k) {
      var i, j :| 0 <= i <= k < j <= |s| && s[i..j] in keywords;
      assert OccursAt(keywords, s, Match(i, j - 1));
    }
    if m :| m in Occurrences(keywords, s, |s|) && m.first <= k <= m.last {
      assert OccursAt(keywords, s, m);
    }
  }

  // ------------------------------------------------------- consequences of masking

  ghost predicate Occurs(keywords: set<Word>, s: Word)
  {
    exists i, j :: 0 <= i <= j <= |s| && s[i..j] in keywords
  }

  predicate AllStars(w: Word)
  {
    forall k :: 0 <= k < |w| ==> w[k] == '*'
  }

  /** What is left of a keyword without the mask character after masking: nothing. */
  lemma StarFreeIsGone(keywords: set<Word>, s: Word, i: nat, j: nat)
    requires i < j <= |s| && '*' !in Masked(keywords, s)[i..j]
    ensures Masked(keywords, s)[i..j] !in keywords
  {
    var t := Masked(keywords, s);
    var w := t[i..j];
    forall k | i <= k < j
      ensures t[k] == s[k] && !Covered(keywords, s, k)
    {
      assert t[k] == w[k - i] && w[k - i] in w;
    }
    assert !Covered(keywords, s, i);
    assert s[i..j] == w;
  }

  /** When no keyword contains the mask character, the masked text is free of keywords. */
  lemma MaskedIsClean(keywords: set<Word>, s: Word)
    requires "" !in keywords
    requires forall w :: w in keywords ==> '*' !in w
    ensures !Occurs(keywords, Masked(keywords, s))
  {
    var t := Masked(keywords, s);
    forall i, j | 0 <= i <= j <= |t|
      ensures t[i..j] !in keywords
    {
      if i == j {
        assert t[i..j] == "";
      } else if '*' !in t[i..j] {
        StarFreeIsGone(keywords, s, i, j);
      }
    }
  }

  /** When every keyword is free of the mask character or consists of nothing else, masking again changes
      nothing. */
  lemma MaskedIdempotent(keywords: set<Word>, s: Word)
    requires "" !in keywords
    requires forall w :: w in keywords ==> '*' !in w || AllStars(w)
    ensures Masked(keywords, Masked(keywords, s)) == Masked(keywords, s)
  {
    var t := Masked(keywords, s);
    forall k: nat | k < |t|
      ensures Masked(keywords, t)[k] == t[k]
    {
      if i, j :| 0 <= i <= k < j <= |t| && t[i..j] in keywords {
        if '*' !in t[i..j] {
          StarFreeIsGone(keywords, s, i, j);
        }
        assert AllStars(t[i..j]);
        assert t[k] == t[i..j][k - i];
      }
    }
  }

  // ---------------------------------------------------------- exactly when masking is clean

  /** Non-empty keywords over the allowed characters. */
  ghost predicate KeywordsOver(keywords: set<Word>, allowed: set<char>)
  {
    "" !in keywords && forall w, k :: w in keywords && 0 <= k < |w| ==> w[k] in allowed
  }

  ghost predicate AlwaysClean(allowed: set<char>)
  {
    forall keywords, s {:trigger Masked(keywords, s)} ::
      KeywordsOver(keywords, allowed) ==> !Occurs(keywords, Masked(keywords, s))
  }

  ghost predicate AlwaysIdempotent(allowed: set<char>)
  {
    forall keywords, s {:trigger Masked(keywords, s)} ::
      KeywordsOver(keywords, allowed) ==> Masked(keywords, Masked(keywords, s)) == Masked(keywords, s)
  }

  lemma StarIsNotClean()
    ensures Occurs({"*"}, Masked({"*"}, "*"))
  {
    var t := Masked({"*"}, "*");
    assert t == "*";
    assert t[0..1] == "*";
  }

  /** The output is free of keywords, for all keywords over some characters and all sentences, exactly when the
      mask character is not one of them. */
  lemma CleanExactly(allowed: set<char>)
    ensures AlwaysClean(allowed) <==> '*' !in allowed
  {
    if '*' in allowed {
      assert KeywordsOver({"*"}, allowed);
      StarIsNotClean();
    } else {
      forall keywords, s | KeywordsOver(keywords, allowed)
        ensures !Occurs(keywords, Masked(keywords, s))
      {
        MaskedIsClean(keywords, s);
      }
    }
  }

  /** Masking "*a" in "*aa" makes another "*a". */
  lemma MaskMakesKeyword(a: char)
    requires a != '*'
    ensures var keywords, s := {['*', a]}, ['*', a, a];
            Masked(keywords, Masked(keywords, s)) != Masked(keywords, s)
  {
    var keywords, s := {['*', a]}, ['*', a, a];
    assert s[0..2] == ['*', a];
    assert Covered(keywords, s, 0) && Covered(keywords, s, 1);
    LastStays(a);
    var t := Masked(keywords, s);
    assert t[0] == '*' && t[1] == '*' && t[2] == a;
    assert t[1..3] == ['*', a];
    assert Covered(keywords, t, 2);
    assert Masked(keywords, t)[2] == '*' != t[2];
  }

  lemma LastStays(a: char)
    requires a != '*'
    ensures !Covered({['*', a]}, ['*', a, a], 2)
  {
    var keyword, s := ['*', a], ['*', a, a];
    forall i, j | 0 <= i <= 2 < j <= |s|
      ensures s[i..j] != keyword
    {
      if i == 1 {
        assert s[i..j][0] == a != keyword[0];
      } else {
        assert |s[i..j]| != |keyword|;
      }
    }
  }

  /** Filtering twice is filtering once, for all keywords over some characters and all sentences, exactly when
      the mask character is not one of them, or is the only one. */
  lemma IdempotentExactly(allowed: set<char>)
    ensures AlwaysIdempotent(allowed) <==> '*' !in allowed || allowed == {'*'}
  {
    if '*' in allowed && allowed != {'*'} {
      var a :| a in allowed && a != '*';
      assert KeywordsOver({['*', a]}, allowed);
      MaskMakesKeyword(a);
    } else {
      forall keywords, s | KeywordsOver(keywords, allowed)
        ensures Masked(keywords, Masked(keywords, s)) == Masked(keywords, s)
      {
        MaskedIdempotent(keywords, s);
      }
    }
  }

  /** A keyword can also be created by masking a different one. */
  lemma StarKeywordSurvives()
    ensures Masked({"a", "*b"}, "ab") == "*b"
    ensures Occurs({"a", "*b"}, Masked({"a", "*b"}, "ab"))
    ensures Masked({"a", "*b"}, "*b") != "*b"
  {
    var keywords, s := {"a", "*b"}, "ab";
    assert s[0..1] == "a";
    assert Covered(keywords, s, 0);
    forall i, j | 0 <= i <= 1 < j <= |s|
      ensures s[i..j] !in keywords
    {
      assert j == 2;
      assert |s[i..j]| == 2 - i;
      assert i == 0 ==> s[i..j] == "ab";
      assert i == 1 ==> s[i..j] == "b";
    }
    assert !Covered(keywords, s, 1);
    var t := Masked(keywords, s);
    assert t == "*b";
    assert t[0..2] == "*b";
    assert Covered(keywords, t, 1);
    assert Masked(keywords, t)[1] == '*' != t[1];
  }

  // ------------------------------------------------------------------- trie words

  ghost predicate HasParent(d: set<Word>, w: Word)
  {
    w == "" || w[..|w| - 1] in d
  }

  ghost predicate PrefixClosed(d: set<Word>)
  {
    "" in d && forall w {:trigger HasParent(d, w)} :: w in d ==> HasParent(d, w)
  }

  lemma NewChild(d: set<Word>, w: Word, c: char)
    requires PrefixClosed(d) && w in d && w + [c] !in d
    ensures PrefixClosed(d + {w + [c]})
    ensures forall e :: w + [c] + [e] !in d && w + [c] + [e] != w + [c]
  {
    var v := w + [c];
    assert v[..|v| - 1] == w;
    forall u | u in d + {v}
      ensures HasParent(d + {v}, u)
    {
      assert u != v ==> HasParent(d, u);
    }
    forall e
      ensures v + [e] !in d
    {
      assert (v + [e])[..|v|] == v;
      assert v + [e] in d ==> HasParent(d, v + [e]);
    }
  }

  lemma SnocSame(w: Word, c: char, v: Word, e: char)
    requires w + [c] == v + [e]
    ensures w == v && c == e
  {
    assert w == (w + [c])[..|w|] && v == (v + [e])[..|v|];
    assert c == (w + [c])[|w|] && e == (v + [e])[|v|];
  }

  lemma {:induction false} PrefixesStay(d: set<Word>, v: Word, n: nat)
    requires PrefixClosed(d) && v in d && n <= |v|
    ensures v[..n] in d
  {
    if n == |v| {
      assert v[..n] == v;
    } else {
      assert HasParent(d, v);
      var u := v[..|v| - 1];
      assert u[..n] == v[..n];
      PrefixesStay(d, u, n);
    }
  }

  /** The words on the path of one word, as far as its first n characters. */
  ghost function Path(w: Word, n: nat): set<Word>
    requires n <= |w|
  {
    if n == 0 then {""} else Path(w, n - 1) + {w[..n]}
  }

  /** The words a trie of these keywords spells: the empty word and all their prefixes. */
  ghost function Prefixes(keywords: set<Word>): (d: set<Word>)
    ensures "" in d
  {
    if keywords == {} then {""}
    else var w :| w in keywords; Prefixes(keywords - {w}) + Path(w, |w|)
  }

  lemma {:induction false} PathExact(w: Word, n: nat)
    requires n <= |w|
    ensures forall x :: x in Path(w, n) <==> |x| <= n && x == w[..|x|]
  {
    if n > 0 {
      PathExact(w, n - 1);
    }
  }

  lemma {:induction false} PrefixesExact(keywords: set<Word>, x: Word)
    ensures x in Prefixes(keywords) <==> x == "" || exists w :: w in keywords && x <= w
    decreases |keywords|
  {
    if keywords != {} {
      var w :| w in keywords && Prefixes(keywords) == Prefixes(keywords - {w}) + Path(w, |w|);
      PrefixesExact(keywords - {w}, x);
      PathExact(w, |w|);
      assert x in Path(w, |w|) <==> x <= w;
      if v :| v in keywords && x <= v && v != w {
        assert v in keywords - {w};
      }
    }
  }

  lemma PrefixesOfUnion(keywords: set<Word>, w: Word)
    ensures Prefixes(keywords + {w}) == Prefixes(keywords) + Path(w, |w|)
  {
    forall x
      ensures x in Prefixes(keywords + {w}) <==> x in Prefixes(keywords) + Path(w, |w|)
    {
      PrefixesExact(keywords + {w}, x);
      PrefixesExact(keywords, x);
      PathExact(w, |w|);
    }
  }

  /** The longest suffix of s that d spells. */
  ghost function LongestSuffix(d: set<Word>, s: Word): (r: Word)
    requires "" in d
    ensures r in d && |r| <= |s|
  {
    if s in d then s else LongestSuffix(d, s[1..])
  }

  lemma SuffixOfTail(t: Word, s: Word)
    requires s != ""
    ensures IsSuffix(t, s[1..]) <==> IsSuffix(t, s) && t != s
  {
    if IsSuffix(t, s) && |t| == |s| {
      assert t == s;
    }
  }

  /** LongestSuffix described without its recursion. */
  lemma {:induction false} LongestSuffixIsLongest(d: set<Word>, s: Word)
    requires "" in d
    ensures var r := LongestSuffix(d, s);
            r in d && IsSuffix(r, s) && forall t :: t in d && IsSuffix(t, s) ==> IsSuffix(t, r)
  {
    if s !in d {
      LongestSuffixIsLongest(d, s[1..]);
      forall t
        ensures IsSuffix(t, s[1..]) <==> IsSuffix(t, s) && t != s
      {
        SuffixOfTail(t, s);
      }
    }
  }

  /** Where a failure link must lead: the longest proper suffix spelled by the trie. */
  ghost function FailWord(d: set<Word>, w: Word): (r: Word)
    requires "" in d
    ensures r in d && (w != "" ==> |r| < |w|)
  {
    if w == "" then "" else LongestSuffix(d, w[1..])
  }

  /** FailWord described without its recursion: the longest among all proper suffixes in d. */
  lemma FailWordIsLongestProperSuffix(d: set<Word>, w: Word)
    requires "" in d && w != ""
    ensures var f := FailWord(d, w);
            && f in d && IsSuffix(f, w) && f != w
            && forall t :: t in d && IsSuffix(t, w) && t != w ==> IsSuffix(t, f)
  {
    LongestSuffixIsLongest(d, w[1..]);
    forall t
      ensures IsSuffix(t, w[1..]) <==> IsSuffix(t, w) && t != w
    {
      SuffixOfTail(t, w);
    }
  }

  /** Reading one more character only needs the longest suffix of what was read before. */
  lemma {:induction false} LongestSuffixSnoc(d: set<Word>, s: Word, c: char)
    requires PrefixClosed(d)
    ensures LongestSuffix(d, s + [c]) == LongestSuffix(d, LongestSuffix(d, s) + [c])
  {
    if s !in d {
      assert (s + [c])[..|s|] == s;
      assert !HasParent(d, s + [c]);
      assert (s + [c])[1..] == s[1..] + [c];
      LongestSuffixSnoc(d, s[1..], c);
    }
  }

  /** One failure link: if t cannot be extended by c, its failure word decides instead. */
  lemma LongestSuffixViaFail(d: set<Word>, t: Word, c: char)
    requires PrefixClosed(d) && t + [c] !in d
    ensures LongestSuffix(d, t + [c]) == if t == "" then "" else LongestSuffix(d, FailWord(d, t) + [c])
  {
    assert (t + [c])[1..] == if t == "" then "" else t[1..] + [c];
    if t != "" {
      LongestSuffixSnoc(d, t[1..], c);
    }
  }

  /** The failure word of a child, from the failure word of its parent. */
  lemma FailWordOfChild(d: set<Word>, w: Word, c: char)
    requires PrefixClosed(d) && w != ""
    ensures FailWord(d, w + [c]) == LongestSuffix(d, FailWord(d, w) + [c])
  {
    assert (w + [c])[1..] == w[1..] + [c];
    LongestSuffixSnoc(d, w[1..], c);
  }

  lemma FailWordOfLetter(d: set<Word>, c: char)
    requires "" in d
    ensures FailWord(d, "" + [c]) == ""
  {
    assert ("" + [c])[1..] == "";
  }

  lemma EndsWithItself(keywords: set<Word>, t: Word, w: Word)
    requires IsSuffix(w, t)
    ensures EndsWithKeyword(keywords, t, |w|) <==> w in keywords
  {
    if v :| v in keywords && |v| == |w| && IsSuffix(v, t) {
      assert v == w;
    }
  }

  /** Between a suffix of t and its longest spelled suffix no keyword starts. */
  lemma {:induction false} SkipToLongestSuffix(keywords: set<Word>, d: set<Word>, t: Word, u: Word)
    requires "" in d && keywords <= d && IsSuffix(u, t)
    ensures var f := LongestSuffix(d, u);
            IsSuffix(f, t) && KeywordsEnding(keywords, t, |f|) == KeywordsEnding(keywords, t, |u|)
  {
    if u !in d {
      EndsWithItself(keywords, t, u);
      SkipToLongestSuffix(keywords, d, t, u[1..]);
    }
  }

  /** One failure link of the search: from one spelled suffix of t to the next. */
  lemma NextEnding(keywords: set<Word>, d: set<Word>, t: Word, w: Word)
    requires "" in d && keywords <= d && IsSuffix(w, t) && w != ""
    ensures var f := FailWord(d, w);
            && IsSuffix(f, t)
            && KeywordsEnding(keywords, t, |f|)
               == if w in keywords then KeywordsEnding(keywords, t, |w|) + [Match(|t| - |w|, |t| - 1)]
                  else KeywordsEnding(keywords, t, |w|)
  {
    EndsWithItself(keywords, t, w);
    assert |w[1..]| == |w| - 1;
    SkipToLongestSuffix(keywords, d, t, w[1..]);
  }

  // --------------------------------------------------------- breadth-first frontier

  ghost predicate ParentLeft(q: seq<Word>, v: Word)
  {
    v == "" || v[..|v| - 1] !in q
  }

  /** A breadth-first queue: words of two neighbouring levels, shorter ones first, each once;
      no word is seen that much deeper, or before its parent left the queue. */
  ghost predicate Leveled(q: seq<Word>, seen: set<Word>, level: nat)
  {
    && (forall i :: 0 <= i < |q| ==> q[i] in seen && level <= |q[i]|)
    && (forall i, j :: 0 <= i < j < |q| ==> q[i] != q[j] && |q[i]| <= |q[j]|)
    && (forall v :: v in seen ==> |v| <= level + 1)
    && (forall v {:trigger ParentLeft(q, v)} :: v in seen ==> ParentLeft(q, v))
  }

  ghost predicate Expanded(d: set<Word>, seen: set<Word>, v: Word)
  {
    forall c :: v + [c] in d ==> v + [c] in seen
  }

  /** Only the queued words and the open ones may have children that were not seen yet. */
  ghost predicate Searched(d: set<Word>, q: seq<Word>, open: set<Word>, seen: set<Word>)
  {
    "" in seen && seen <= d
    && forall v {:trigger Expanded(d, seen, v)} :: v in seen && v !in q && v !in open ==> Expanded(d, seen, v)
  }

  /** ... and then every word no longer than these is seen. */
  lemma {:induction false} FrontierBound(d: set<Word>, q: seq<Word>, open: set<Word>, seen: set<Word>, x: Word)
    requires PrefixClosed(d) && Searched(d, q, open, seen) && x in d
    requires forall v :: v in q || v in open ==> |x| <= |v|
    ensures x in seen
    decreases |x|
  {
    if x != "" {
      var parent := x[..|x| - 1];
      assert HasParent(d, x);
      FrontierBound(d, q, open, seen, parent);
      assert Expanded(d, seen, parent);
      assert x == parent + [x[|x| - 1]];
    }
  }

  lemma StartSearch(d: set<Word>)
    requires PrefixClosed(d)
    ensures Leveled([""], {""}, 0) && Searched(d, [""], {}, {""})
  {
    assert ParentLeft([""], "");
  }

  lemma SearchComplete(d: set<Word>, seen: set<Word>)
    requires PrefixClosed(d) && Searched(d, [], {}, seen)
    ensures seen == d
  {
    forall x | x in d
      ensures x in seen
    {
      FrontierBound(d, [], {}, seen, x);
    }
  }

  lemma FewerUnseen(d: set<Word>, before: set<Word>, after: set<Word>, w: Word)
    requires before <= after <= d && w in after && w !in before
    ensures d - after < d - before
  {
    assert w in d - before && w !in d - after;
  }

  lemma PopFront(d: set<Word>, q: seq<Word>, seen: set<Word>, level: nat)
    requires q != [] && Leveled(q, seen, level) && Searched(d, q, {}, seen)
    ensures Leveled(q[1..], seen, |q[0]|) && Searched(d, q[1..], {q[0]}, seen)
    ensures q[0] !in q[1..] && forall c :: q[0] + [c] !in seen
  {
    var w, rest := q[0], q[1..];
    assert q == [w] + rest;
    forall v | v in seen && v !in rest && v != w
      ensures Expanded(d, seen, v)
    {
      assert v !in q;
    }
    forall v | v in seen
      ensures ParentLeft(rest, v)
    {
      assert ParentLeft(q, v);
    }
    forall c
      ensures w + [c] !in seen
    {
      assert (w + [c])[..|w|] == w;
      assert !ParentLeft(q, w + [c]);
    }
  }

  lemma PushChild(d: set<Word>, q: seq<Word>, w: Word, c: char, seen: set<Word>)
    requires Leveled(q, seen, |w|) && Searched(d, q, {w}, seen)
    requires w !in q && w + [c] in d && w + [c] !in seen
    ensures Leveled(q + [w + [c]], seen + {w + [c]}, |w|)
    ensures Searched(d, q + [w + [c]], {w}, seen + {w + [c]})
    ensures w !in q + [w + [c]]
  {
    var u := w + [c];
    assert u[..|w|] == w;
    forall v | v in seen + {u} && v !in q + [u] && v != w
      ensures Expanded(d, seen + {u}, v)
    {
      assert v !in q && v in seen;
      assert Expanded(d, seen, v);
    }
    forall v | v in seen + {u}
      ensures ParentLeft(q + [u], v)
    {
      assert v in seen ==> ParentLeft(q, v);
    }
  }

  lemma CloseParent(d: set<Word>, q: seq<Word>, w: Word, seen: set<Word>)
    requires Searched(d, q, {w}, seen) && Expanded(d, seen, w)
    ensures Searched(d, q, {}, seen)
  {
    forall v | v in seen && v !in q
      ensures Expanded(d, seen, v)
    {
    }
  }

  lemma SnocInjective(w: Word, c: char)
    ensures forall b :: w + [b] == w + [c] ==> b == c
  {
    assert (w + [c])[|w|] == c;
    forall b | w + [b] == w + [c]
      ensures b == c
    {
      assert (w + [b])[|w|] == b;
    }
  }

  // ------------------------------------------------------------------ cost of build

  /** What is summed over a set of words: their lengths, the failure links followed by their walks,
      or what the depth of the failure target loses on the way from the parent. */
  datatype Measure = Lengths | Hops(walks: map<Word, nat>) | Slack(d: set<Word>)
  {
    ghost function Of(w: Word): int
    {
      match this
      case Lengths => |w|
      case Hops(walks) => if w in walks then walks[w] else 0
      case Slack(d) =>
        if w == "" || "" !in d then 0 else 1 + |FailWord(d, w[..|w| - 1])| - |FailWord(d, w)|
    }
  }

  ghost function Sum(s: set<Word>, f: Measure): int
  {
    if s == {} then 0 else var w :| w in s; f.Of(w) + Sum(s - {w}, f)
  }

  lemma {:induction false} SumAdd(s: set<Word>, w: Word, f: Measure)
    requires w !in s
    ensures Sum(s + {w}, f) == Sum(s, f) + f.Of(w)
    decreases |s|
  {
    var t := s + {w};
    var v :| v in t && Sum(t, f) == f.Of(v) + Sum(t - {v}, f);
    if v == w {
      assert t - {v} == s;
    } else {
      assert t - {v} == (s - {v}) + {w};
      SumAdd(s - {v}, w, f);
      SumAdd(s - {v}, v, f);
      assert (s - {v}) + {v} == s;
    }
  }

  lemma {:induction false} SumMonotone(s: set<Word>, f: Measure, g: Measure)
    requires forall w :: w in s ==> f.Of(w) <= g.Of(w)
    ensures Sum(s, f) <= Sum(s, g)
    decreases |s|
  {
    if s != {} {
      var w :| w in s;
      SumMonotone(s - {w}, f, g);
      SumAdd(s - {w}, w, f);
      SumAdd(s - {w}, w, g);
      assert (s - {w}) + {w} == s;
    }
  }

  lemma SlackNonNegative(d: set<Word>, w: Word)
    requires PrefixClosed(d)
    ensures Slack(d).Of(w) >= 0
  {
    if |w| > 1 {
      var u, c := w[..|w| - 1], w[|w| - 1];
      assert w == u + [c];
      FailWordOfChild(d, u, c);
    }
  }

  /** Along the path of one keyword the slack telescopes. */
  lemma {:induction false} SlackAlongWord(d: set<Word>, done: set<Word>, w: Word, n: nat)
    requires PrefixClosed(d) && "" in done && n <= |w|
    ensures Sum(done + Path(w, n), Slack(d)) <= Sum(done, Slack(d)) + n - |FailWord(d, w[..n])|
  {
    if n == 0 {
      assert done + Path(w, 0) == done;
    } else {
      SlackAlongWord(d, done, w, n - 1);
      var v, before := w[..n], done + Path(w, n - 1);
      assert done + Path(w, n) == before + {v};
      assert v[..n - 1] == w[..n - 1];
      SlackNonNegative(d, v);
      if v in before {
        assert before + {v} == before;
      } else {
        SumAdd(before, v, Slack(d));
      }
    }
  }

  lemma {:induction false} SlackTotal(d: set<Word>, keywords: set<Word>)
    requires PrefixClosed(d)
    ensures Sum(Prefixes(keywords), Slack(d)) <= Sum(keywords, Lengths)
    decreases |keywords|
  {
    if keywords == {} {
      SumAdd({}, "", Slack(d));
      assert {""} == {} + {""};
    } else {
      var w :| w in keywords;
      var rest := keywords - {w};
      SlackTotal(d, rest);
      SlackAlongWord(d, Prefixes(rest), w, |w|);
      PrefixesOfUnion(rest, w);
      assert keywords == rest + {w};
      SumAdd(rest, w, Lengths);
    }
  }

  /** The walk that links w follows no more failure links than the depth of its target loses. */
  ghost predicate WalkOk(d: set<Word>, w: Word, hops: nat)
    requires "" in d
  {
    if w == "" then hops == 0 else hops + |FailWord(d, w)| <= |FailWord(d, w[..|w| - 1])| + 1
  }

  /** Linear cost of build: all its walks together, one for each node of the trie, follow at most
      as many failure links as the distinct keywords have characters. */
  lemma WalksAreLinear(keywords: set<Word>, walks: map<Word, nat>)
    requires walks.Keys == Prefixes(keywords) && PrefixClosed(walks.Keys)
    requires forall w :: w in walks ==> WalkOk(walks.Keys, w, walks[w])
    ensures Sum(walks.Keys, Hops(walks)) <= Sum(keywords, Lengths)
  {
    var d := walks.Keys;
    forall w | w in d
      ensures Hops(walks).Of(w) <= Slack(d).Of(w)
    {
      assert WalkOk(d, w, walks[w]);
    }
    SumMonotone(d, Hops(walks), Slack(d));
    SlackTotal(d, keywords);
  }
}
