/** Substring search, used by both searches for users. */
module Strings {

  /** std::string::find reports a position. */
  predicate Contains(s: string, keyword: string)
  {
    exists i :: 0 <= i <= |s| && keyword <= s[i..]
  }

  /** A name contains a keyword exactly if it is something, the keyword, and something. */
  lemma ContainsExactly(s: string, keyword: string)
    ensures Contains(s, keyword) <==> exists before, after :: s == before + keyword + after
  {
    if i :| 0 <= i <= |s| && keyword <= s[i..] {
      assert s == s[..i] + keyword + s[i + |keyword|..];
    }
    if before, after :| s == before + keyword + after {
      assert s[|before|..] == keyword + after;
    }
  }

  /** Listing the names that contain the keyword is listing those that are something, the keyword, and something. */
  lemma ListedAround(names: seq<string>, all: set<string>, keyword: string)
    requires forall name :: name in names <==> name in all && Contains(name, keyword)
    ensures forall a, b :: a + keyword + b in names <==> a + keyword + b in all
  {
    forall a, b
      ensures a + keyword + b in names <==> a + keyword + b in all
    {
      ContainsExactly(a + keyword + b, keyword);
    }
  }
}
