/**
 * The string helpers that turn schema identifiers into Python names:
 * remove_linked_ql and normalize_keywords of generate/generate.py.
 */
module Names {

  const LinkedQlPrefix: string := "linkedql:"

  /** `s` holds an occurrence of "linkedql:" starting at index `i`. */
  predicate PrefixAt(s: string, i: int) {
    0 <= i && i + |LinkedQlPrefix| <= |s| && s[i..i + |LinkedQlPrefix|] == LinkedQlPrefix
  }

  /** `s` holds "linkedql:" somewhere, not necessarily at its start. */
  predicate MentionsLinkedQl(s: string) {
    exists i | 0 <= i <= |s| :: PrefixAt(s, i)
  }

  /**
   * remove_linked_ql: Python's `str.replace("linkedql:", "")`, which deletes
   * every occurrence found in one left-to-right scan, not only a leading one.
   */
  function RemoveLinkedQl(s: string): (r: string)
    ensures |r| <= |s|
    decreases |s|
  {
    if |s| < |LinkedQlPrefix| then s
    else if s[..|LinkedQlPrefix|] == LinkedQlPrefix then RemoveLinkedQl(s[|LinkedQlPrefix|..])
    else [s[0]] + RemoveLinkedQl(s[1..])
  }

  lemma {:induction false} MentionsTail(s: string)
    requires |s| > 0
    ensures MentionsLinkedQl(s[1..]) ==> MentionsLinkedQl(s)
    ensures MentionsLinkedQl(s) && !PrefixAt(s, 0) ==> MentionsLinkedQl(s[1..])
  {
    var n := |LinkedQlPrefix|;
    if MentionsLinkedQl(s[1..]) {
      var i :| 0 <= i <= |s[1..]| && PrefixAt(s[1..], i);
      assert 0 <= i && i + n <= |s| - 1;
      assert s[i + 1..i + 1 + n] == s[1..][i..i + n];
      assert PrefixAt(s, i + 1);
    }
    if MentionsLinkedQl(s) && !PrefixAt(s, 0) {
      var i :| 0 <= i <= |s| && PrefixAt(s, i);
      assert i != 0;
      assert 1 <= i && i + n <= |s|;
      assert s[1..][i - 1..i - 1 + n] == s[i..i + n];
      assert PrefixAt(s[1..], i - 1);
    }
  }

  /** A name that never mentions the prefix is returned unchanged, and only such a name. */
  lemma {:induction false} RemoveLinkedQlIdentity(s: string)
    ensures RemoveLinkedQl(s) == s <==> !MentionsLinkedQl(s)
    decreases |s|
  {
    var n := |LinkedQlPrefix|;
    if |s| < n {
      assert !MentionsLinkedQl(s);
    } else if s[..n] == LinkedQlPrefix {
      assert PrefixAt(s, 0);
      RemoveLinkedQlShortens(s);
    } else {
      assert !PrefixAt(s, 0);
      MentionsTail(s);
      RemoveLinkedQlIdentity(s[1..]);
      if RemoveLinkedQl(s) == s {
        assert RemoveLinkedQl(s[1..]) == s[1..] by {
          assert RemoveLinkedQl(s) == [s[0]] + RemoveLinkedQl(s[1..]);
          assert s == [s[0]] + s[1..];
        }
      }
    }
  }

  /** Every occurrence deleted shortens the name by the prefix's nine characters. */
  lemma {:induction false} RemoveLinkedQlShortens(s: string)
    requires MentionsLinkedQl(s)
    ensures |RemoveLinkedQl(s)| <= |s| - |LinkedQlPrefix|
    decreases |s|
  {
    var n := |LinkedQlPrefix|;
    var i :| 0 <= i <= |s| && PrefixAt(s, i);
    assert |s| >= n;
    if s[..n] != LinkedQlPrefix {
      assert !PrefixAt(s, 0);
      MentionsTail(s);
      RemoveLinkedQlShortens(s[1..]);
    }
  }

  /** The leading prefix of a schema id is dropped. */
  lemma RemoveLeadingLinkedQl(s: string)
    ensures RemoveLinkedQl(LinkedQlPrefix + s) == RemoveLinkedQl(s)
  {
    assert (LinkedQlPrefix + s)[..|LinkedQlPrefix|] == LinkedQlPrefix;
    assert (LinkedQlPrefix + s)[|LinkedQlPrefix|..] == s;
  }

  /** An occurrence after the start is deleted too: the replacement is not anchored. */
  lemma RemoveInnerLinkedQl()
    ensures RemoveLinkedQl("ex:linkedql:Foo") == "ex:Foo"
  {
    var s := "ex:linkedql:Foo";
    assert s[..9] != LinkedQlPrefix by { assert s[0] != LinkedQlPrefix[0]; }
    assert s[1..][..9] != LinkedQlPrefix by { assert s[1] != LinkedQlPrefix[0]; }
    assert s[1..][1..][..9] != LinkedQlPrefix by { assert s[2] != LinkedQlPrefix[0]; }
    assert s[1..][1..][1..] == LinkedQlPrefix + "Foo";
    RemoveLeadingLinkedQl("Foo");
  }

  /**
   * One scan only: deleting an inner occurrence can splice together a new one,
   * which stays. The result of RemoveLinkedQl can still mention the prefix.
   */
  lemma RemoveLinkedQlIsSinglePass()
    ensures RemoveLinkedQl("llinkedql:inkedql:") == LinkedQlPrefix
    ensures MentionsLinkedQl(RemoveLinkedQl("llinkedql:inkedql:"))
  {
    var s := "llinkedql:inkedql:";
    assert RemoveLinkedQl(s) == [s[0]] + RemoveLinkedQl(s[1..]) by {
      assert s[..9] != LinkedQlPrefix by { assert s[1] != LinkedQlPrefix[1]; }
    }
    assert RemoveLinkedQl(s[1..]) == "inkedql:" by {
      assert s[1..] == LinkedQlPrefix + "inkedql:";
      RemoveLeadingLinkedQl("inkedql:");
    }
    assert [s[0]] + "inkedql:" == LinkedQlPrefix;
    assert PrefixAt(LinkedQlPrefix, 0);
  }

  /** The four names normalize_keywords escapes. */
  const EscapedKeywords: set<string> := {"as", "is", "in", "except"}

  /**
   * normalize_keywords: exactly the four listed keywords get a trailing
   * underscore; the result is never one of them.
   */
  function NormalizeKeywords(name: string): (r: string)
    ensures r != name <==> name in EscapedKeywords
    ensures name in EscapedKeywords ==> r == name + "_"
    ensures r !in EscapedKeywords
  {
    if name in EscapedKeywords then name + "_" else name
  }

  lemma NormalizeKeywordsIdempotent(name: string)
    ensures NormalizeKeywords(NormalizeKeywords(name)) == NormalizeKeywords(name)
  {
  }
}
