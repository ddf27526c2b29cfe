/** SQLite's LIKE without ESCAPE, and what the patterns of the index mean by it. */
module Like {
  import opened Text

  /** `%` stands for any text, `_` for one character; ASCII letters match in either case. */
  predicate Like(pattern: string, s: string)
    decreases |pattern| + |s|
  {
    if pattern == "" then s == ""
    else if pattern[0] == '%' then Like(pattern[1..], s) || (s != "" && Like(pattern, s[1..]))
    else if s == "" then false
    else (pattern[0] == '_' || LowerChar(pattern[0]) == LowerChar(s[0])) && Like(pattern[1..], s[1..])
  }

  /** No character of the needle is a wildcard. */
  predicate NoWildcards(n: string) { '%' !in n && '_' !in n }

  /** Equal up to the case of ASCII letters. */
  predicate SameText(a: string, b: string) { Lower(a) == Lower(b) }

  predicate FoundAt(s: string, n: string, i: nat) { i + |n| <= |s| && SameText(s[i..i + |n|], n) }

  /** `n` is a substring of `s`, up to ASCII case. */
  predicate Contains(s: string, n: string) { exists i :: 0 <= i <= |s| && FoundAt(s, n, i) }

  lemma {:induction false} AnythingMatches(s: string)
    ensures Like("%", s)
  {
    if s != "" { AnythingMatches(s[1..]); }
    assert "%"[1..] == "";
  }

  lemma SameTextCons(a: string, b: string)
    requires a != "" && b != ""
    ensures SameText(a, b) <==> LowerChar(a[0]) == LowerChar(b[0]) && SameText(a[1..], b[1..])
  {
    assert Lower(a) == [LowerChar(a[0])] + Lower(a[1..]);
    assert Lower(b) == [LowerChar(b[0])] + Lower(b[1..]);
    assert Lower(a)[1..] == Lower(a[1..]) && Lower(b)[1..] == Lower(b[1..]);
  }

  /** `n%` is "starts with n". */
  lemma {:induction false} PrefixPattern(n: string, s: string)
    requires NoWildcards(n)
    ensures Like(n + "%", s) <==> FoundAt(s, n, 0)
    decreases |n|
  {
    if n == "" {
      AnythingMatches(s);
      assert n + "%" == "%" && s[0..0] == "";
    } else {
      assert n[0] in n;
      assert (n + "%")[1..] == n[1..] + "%";
      if s != "" {
        PrefixPattern(n[1..], s[1..]);
        if |n| <= |s| {
          assert s[0..|n|][1..] == s[1..][0..|n| - 1];
          SameTextCons(s[0..|n|], n);
        }
      }
    }
  }

  /** `%n%` is substring containment. */
  lemma {:induction false} ContainsPattern(n: string, s: string)
    requires NoWildcards(n)
    ensures Like("%" + n + "%", s) <==> Contains(s, n)
    decreases |s|
  {
    var p := "%" + n + "%";
    assert p[1..] == n + "%";
    PrefixPattern(n, s);
    if s == "" {
      assert FoundAt(s, n, 0) ==> Contains(s, n);
    } else {
      ContainsPattern(n, s[1..]);
      ContainsTail(s, n);
    }
  }

  lemma ContainsTail(s: string, n: string)
    requires s != ""
    ensures Contains(s, n) <==> FoundAt(s, n, 0) || Contains(s[1..], n)
  {
    if Contains(s, n) {
      var i :| 0 <= i <= |s| && FoundAt(s, n, i);
      if i > 0 {
        assert i + |n| <= |s| && s[1..][i - 1..i - 1 + |n|] == s[i..i + |n|];
        assert FoundAt(s[1..], n, i - 1);
      }
    }
    if Contains(s[1..], n) {
      var i :| 0 <= i <= |s[1..]| && FoundAt(s[1..], n, i);
      assert s[1..][i..i + |n|] == s[i + 1..i + 1 + |n|];
      assert FoundAt(s, n, i + 1);
    }
  }

  /** Lowering both sides changes nothing. */
  lemma ContainsLower(s: string, n: string)
    ensures Contains(Lower(s), Lower(n)) <==> Contains(s, n)
  {
    forall i | 0 <= i <= |s| ensures FoundAt(Lower(s), Lower(n), i) <==> FoundAt(s, n, i) {
      if i + |n| <= |s| {
        assert Lower(Lower(s)[i..i + |n|]) == Lower(s[i..i + |n|]);
        assert Lower(Lower(n)) == Lower(n);
      }
    }
    if Contains(s, n) {
      var i :| 0 <= i <= |s| && FoundAt(s, n, i);
      assert FoundAt(Lower(s), Lower(n), i);
    }
    if Contains(Lower(s), Lower(n)) {
      var i :| 0 <= i <= |Lower(s)| && FoundAt(Lower(s), Lower(n), i);
      assert FoundAt(s, n, i);
    }
  }

  /** `folder` lies under `f` after a slash. */
  predicate Descendant(folder: string, f: string) { FoundAt(folder, f + "/", 0) }

  /** `f/%` is "strict descendant of f". */
  lemma DescendantPattern(f: string, folder: string)
    requires NoWildcards(f)
    ensures Like(f + "/%", folder) <==> Descendant(folder, f)
  {
    assert f + "/%" == (f + "/") + "%";
    PrefixPattern(f + "/", folder);
  }

  /** A folder that merely begins with the name, such as a sibling, is none. */
  lemma SiblingUntouched(f: string, more: string)
    requires NoWildcards(f) && more != "" && more[0] != '/'
    ensures !Like(f + "/%", f + more) && f + more != f
  {
    DescendantPattern(f, f + more);
    var k := |f|;
    if |f + more| > k {
      assert Lower((f + more)[0..k + 1])[k] == LowerChar(more[0]);
      assert Lower(f + "/")[k] == '/';
    }
  }

  // ── patterns with wildcards ────────────────────────────────────────────

  predicate IsWildcard(c: char) { c == '%' || c == '_' }

  /** As long as the pattern, and equal to it off the wildcards. */
  predicate Fits(p: string, s: string) {
    |p| == |s| && forall i :: 0 <= i < |p| ==> IsWildcard(p[i]) || LowerChar(p[i]) == LowerChar(s[i])
  }

  lemma {:induction false} FitsLike(p: string, s: string, more: string, t: string)
    requires Fits(p, s) && Like(more, t)
    ensures Like(p + more, s + t)
    decreases |p|
  {
    if p == "" {
      assert p + more == more && s + t == t;
    } else {
      assert (p + more)[1..] == p[1..] + more && (s + t)[1..] == s[1..] + t;
      FitsLike(p[1..], s[1..], more, t);
      assert Like((p + more)[1..], (s + t)[1..]);
      if p[0] == '%' { AnyOne(p + more, s + t); }
    }
  }

  /** A percent sign may stand for one character. */
  lemma AnyOne(p: string, s: string)
    requires p != "" && p[0] == '%' && s != "" && Like(p[1..], s[1..])
    ensures Like(p, s)
  {
    assert Like(p, s[1..]);
  }

  /** The text with a letter in place of each wildcard. */
  function Filled(n: string): (r: string)
    ensures |r| == |n| && forall i :: 0 <= i < |n| ==> r[i] == if IsWildcard(n[i]) then 'x' else n[i]
  {
    seq(|n|, i requires 0 <= i < |n| => if IsWildcard(n[i]) then 'x' else n[i])
  }

  lemma FilledDiffers(n: string, tail: string)
    requires !NoWildcards(n)
    ensures Fits(n, Filled(n)) && !SameText(Filled(n) + tail, n + tail)
  {
    var i :| 0 <= i < |n| && IsWildcard(n[i]);
    assert Lower(Filled(n) + tail)[i] == 'x' && Lower(n + tail)[i] == n[i];
  }

  /** A text of the pattern's length that agrees with it is found, wildcards or not. */
  lemma FitsContains(n: string, s: string)
    requires Fits(n, s)
    ensures Like("%" + n + "%", s)
  {
    AnythingMatches("");
    FitsLike(n, s, "%", "");
    assert s + "" == s && ("%" + n + "%")[1..] == n + "%";
  }

  /** `%n%` means "contains n" exactly when the needle has no wildcard. */
  lemma ContainsExactly(n: string)
    ensures NoWildcards(n) <==> forall s :: Like("%" + n + "%", s) <==> Contains(s, n)
  {
    if NoWildcards(n) {
      forall s ensures Like("%" + n + "%", s) <==> Contains(s, n) { ContainsPattern(n, s); }
    } else {
      var s := Filled(n);
      FilledDiffers(n, "");
      FitsContains(n, s);
      assert s + "" == s && n + "" == n;
      assert forall i :: 0 <= i <= |s| && FoundAt(s, n, i) ==> i == 0 && s[i..i + |n|] == s;
      assert !Contains(s, n);
    }
  }

  /** The folder or one below it, as the filters ask for it. */
  predicate Under(folder: string, f: string) { folder == f || Like(f + "/%", folder) }

  /** "The folder and its descendants" is what is asked for exactly when the folder
      name has no wildcard. */
  lemma UnderExactly(f: string)
    ensures NoWildcards(f) <==> forall folder :: Under(folder, f) <==> folder == f || Descendant(folder, f)
  {
    if NoWildcards(f) {
      forall folder ensures Under(folder, f) <==> folder == f || Descendant(folder, f) { DescendantPattern(f, folder); }
    } else {
      OtherFolder(f);
      var folder := Filled(f) + "/";
      assert Under(folder, f) && folder != f && !Descendant(folder, f);
    }
  }

  /** With a wildcard in the name some other folder is matched. */
  lemma OtherFolder(f: string)
    requires !NoWildcards(f)
    ensures Like(f + "/%", Filled(f) + "/") && Filled(f) + "/" != f && !Descendant(Filled(f) + "/", f)
  {
    var folder := Filled(f) + "/";
    FilledDiffers(f, "/");
    AnythingMatches("");
    assert "/%"[1..] == "%" && "/"[1..] == "";
    FitsLike(f, Filled(f), "/%", "/");
    assert folder[0..0 + |f + "/"|] == folder;
  }

  predicate Letter(c: char) { LowerChar(c) != c || UpperChar(c) != c }

  function OtherCase(c: char): char { if LowerChar(c) != c then LowerChar(c) else UpperChar(c) }

  predicate Letterless(f: string) { forall i :: 0 <= i < |f| ==> !Letter(f[i]) }

  /** Only the folders spelled exactly like `f` up to the slash: this is asked for
      exactly when the name has neither a wildcard nor an ASCII letter. */
  lemma SpelledExactly(f: string)
    ensures NoWildcards(f) && Letterless(f) <==> forall folder :: Like(f + "/%", folder) <==> f + "/" <= folder
  {
    if NoWildcards(f) && Letterless(f) {
      forall folder ensures Like(f + "/%", folder) <==> f + "/" <= folder {
        DescendantPattern(f, folder);
        NoLettersSame(f + "/", folder);
      }
    } else {
      var folder := OtherSpelling(f);
      hide Like, NoWildcards, Letterless;
    }
  }

  /** Another folder that is asked for: `x` for wildcards, or a letter in the other case. */
  lemma OtherSpelling(f: string) returns (folder: string)
    requires !(NoWildcards(f) && Letterless(f))
    ensures Like(f + "/%", folder) && !(f + "/" <= folder)
  {
    if !NoWildcards(f) {
      OtherFolder(f);
      folder := Filled(f) + "/";
      FilledDiffers(f, "/");
    } else {
      var i :| 0 <= i < |f| && Letter(f[i]);
      folder := f[i := OtherCase(f[i])] + "/";
      OtherLetter(f, i);
      DescendantPattern(f, folder);
      assert folder[0..0 + |f + "/"|] == folder;
      hide Like;
      assert folder[i] != (f + "/")[i];
    }
  }

  lemma OtherLetter(f: string, i: nat)
    requires i < |f| && Letter(f[i])
    ensures SameText(f[i := OtherCase(f[i])] + "/", f + "/") && OtherCase(f[i]) != f[i]
  {
    assert LowerChar(OtherCase(f[i])) == LowerChar(f[i]);
    assert Lower(f[i := OtherCase(f[i])] + "/") == Lower(f + "/");
  }

  lemma NoLettersSame(n: string, s: string)
    requires Letterless(n)
    ensures FoundAt(s, n, 0) <==> n <= s
  {
    if |n| <= |s| {
      var a := s[0..0 + |n|];
      if SameText(a, n) {
        assert forall i :: 0 <= i < |n| ==> Lower(a)[i] == Lower(n)[i];
        assert a == n;
      }
      assert n <= s <==> a == n;
    }
  }

  /** One such name and folder. */
  lemma WildcardFolder()
    ensures Like("a_c" + "/%", "axc/") && !Descendant("axc/", "a_c")
  {
    OtherFolder("a_c");
    assert "a_c"[1] == '_';
    assert Filled("a_c") == "axc" && "axc" + "/" == "axc/";
  }
}
