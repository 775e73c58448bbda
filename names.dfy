/** Name handling of the address builder: SanitizeName (three chained
    String.Replace calls) and the short component type name taken after the
    last '.' of the type's full name. */
module Names {

  /** String.Replace(c, rep) for a one-character pattern: every occurrence of
      c is replaced by rep, left to right. */
  function Replace(s: string, c: char, rep: string): string
  {
    if s == [] then [] else (if s[0] == c then rep else [s[0]]) + Replace(s[1..], c, rep)
  }

  /** Number of occurrences of c in s. */
  function Count(s: string, c: char): nat
  {
    if s == [] then 0 else (if s[0] == c then 1 else 0) + Count(s[1..], c)
  }

  /** niceName.Replace(" ", "-").Replace("(", "").Replace(")", "") */
  function SanitizeName(niceName: string): string
  {
    Replace(Replace(Replace(niceName, ' ', "-"), '(', ""), ')', "")
  }

  /** A character c is removed by replacing it with a text that does not hold it. */
  lemma {:induction false} ReplaceRemoves(s: string, c: char, rep: string)
    requires c !in rep
    ensures c !in Replace(s, c, rep)
  {
    if s != [] {
      ReplaceRemoves(s[1..], c, rep);
    }
  }

  /** Another character d that rep does not hold is present afterwards exactly when it was before. */
  lemma {:induction false} ReplaceKeeps(s: string, c: char, rep: string, d: char)
    requires d != c && d !in rep
    ensures d in Replace(s, c, rep) <==> d in s
  {
    if s != [] {
      ReplaceKeeps(s[1..], c, rep, d);
      assert s == [s[0]] + s[1..];
    }
  }

  /** Each occurrence of c grows or shrinks the text by |rep| - 1. */
  lemma {:induction false} ReplaceLength(s: string, c: char, rep: string)
    ensures |Replace(s, c, rep)| == |s| + Count(s, c) * (|rep| - 1)
  {
    if s != [] {
      ReplaceLength(s[1..], c, rep);
    }
  }

  /** Counts of a character d that is neither c nor in rep are unchanged. */
  lemma {:induction false} ReplaceCountOther(s: string, c: char, rep: string, d: char)
    requires d != c && d !in rep
    ensures Count(Replace(s, c, rep), d) == Count(s, d)
  {
    if s != [] {
      ReplaceCountOther(s[1..], c, rep, d);
      CountConcat(if s[0] == c then rep else [s[0]], Replace(s[1..], c, rep), d);
      if s[0] == c {
        CountAbsent(rep, d);
      }
    }
  }

  /** Replacing a character that does not occur changes nothing. */
  lemma {:induction false} ReplaceAbsent(s: string, c: char, rep: string)
    requires c !in s
    ensures Replace(s, c, rep) == s
  {
    if s != [] {
      ReplaceAbsent(s[1..], c, rep);
      assert s == [s[0]] + s[1..];
    }
  }

  lemma {:induction false} CountConcat(a: string, b: string, d: char)
    ensures Count(a + b, d) == Count(a, d) + Count(b, d)
  {
    if a != [] {
      assert (a + b)[1..] == a[1..] + b;
      CountConcat(a[1..], b, d);
    } else {
      assert a + b == b;
    }
  }

  lemma {:induction false} CountAbsent(s: string, d: char)
    requires d !in s
    ensures Count(s, d) == 0
  {
    if s != [] {
      CountAbsent(s[1..], d);
    }
  }

  /** A sanitised name holds no space and no parenthesis. */
  lemma SanitizeNameClean(niceName: string)
    ensures ' ' !in SanitizeName(niceName)
    ensures '(' !in SanitizeName(niceName)
    ensures ')' !in SanitizeName(niceName)
  {
    var s1 := Replace(niceName, ' ', "-");
    var s2 := Replace(s1, '(', "");
    ReplaceRemoves(niceName, ' ', "-");
    ReplaceKeeps(s1, '(', "", ' ');
    ReplaceRemoves(s1, '(', "");
    ReplaceKeeps(s2, ')', "", ' ');
    ReplaceKeeps(s2, ')', "", '(');
    ReplaceRemoves(s2, ')', "");
  }

  /** Spaces become '-' one for one and parentheses are deleted, so the length
      drops by the number of parentheses. */
  lemma SanitizeNameLength(niceName: string)
    ensures |SanitizeName(niceName)| == |niceName| - Count(niceName, '(') - Count(niceName, ')')
  {
    var s1 := Replace(niceName, ' ', "-");
    var s2 := Replace(s1, '(', "");
    ReplaceLength(niceName, ' ', "-");
    ReplaceLength(s1, '(', "");
    ReplaceLength(s2, ')', "");
    ReplaceCountOther(niceName, ' ', "-", '(');
    ReplaceCountOther(niceName, ' ', "-", ')');
    ReplaceCountOther(s1, '(', "", ')');
  }

  /** A name with no space and no parenthesis is its own sanitised form. */
  lemma SanitizeNameFixesClean(niceName: string)
    requires ' ' !in niceName && '(' !in niceName && ')' !in niceName
    ensures SanitizeName(niceName) == niceName
  {
    ReplaceAbsent(niceName, ' ', "-");
    ReplaceAbsent(niceName, '(', "");
    ReplaceAbsent(niceName, ')', "");
  }

  /** Sanitising twice is sanitising once. */
  lemma SanitizeNameIdempotent(niceName: string)
    ensures SanitizeName(SanitizeName(niceName)) == SanitizeName(niceName)
  {
    SanitizeNameClean(niceName);
    SanitizeNameFixesClean(SanitizeName(niceName));
  }

  /** s.LastIndexOf(c): the index of the last occurrence of c, or -1. */
  function LastIndexOf(s: string, c: char): (r: int)
    ensures -1 <= r < |s|
    ensures r >= 0 ==> s[r] == c
    ensures forall j :: r < j < |s| ==> s[j] != c
  {
    if s == [] then -1
    else if s[|s| - 1] == c then |s| - 1
    else LastIndexOf(s[..|s| - 1], c)
  }

  /** typeName.Substring(Max(typeName.LastIndexOf(".") + 1, 0)): the type name
      without its namespace. */
  function ShortTypeName(typeName: string): string
  {
    typeName[LastIndexOf(typeName, '.') + 1..]
  }

  /** The short type name is the longest suffix of the full name with no
      '.' in it: it starts at the beginning or right after a '.', and a name
      without '.' is kept whole. */
  lemma ShortTypeNameSuffix(typeName: string)
    ensures '.' !in ShortTypeName(typeName)
    ensures exists k :: 0 <= k <= |typeName| && ShortTypeName(typeName) == typeName[k..]
    ensures var k := |typeName| - |ShortTypeName(typeName)|;
      k == 0 || typeName[k - 1] == '.'
    ensures '.' !in typeName ==> ShortTypeName(typeName) == typeName
  {
    var k := LastIndexOf(typeName, '.') + 1;
    assert ShortTypeName(typeName) == typeName[k..];
    assert |typeName| - |ShortTypeName(typeName)| == k;
    forall i | 0 <= i < |typeName[k..]|
      ensures typeName[k..][i] != '.'
    {
      assert typeName[k..][i] == typeName[k + i];
    }
  }
}
