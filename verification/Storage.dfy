/** Storage keys: how an upload is named, which org may read it, and how the inbox
    recovers the filename. */
module Storage {

  ghost predicate Free(s: string, c: char) { forall i :: 0 <= i < |s| ==> s[i] != c }

  // ===== org ids =====

  predicate IsPlain(c: char) { 'a' <= c <= 'z' || '0' <= c <= '9' }

  /** Each run of characters outside [a-z0-9] becomes one '-'; `inRun` says one is open. */
  function Collapse(s: string, inRun: bool): string {
    if s == "" then ""
    else if IsPlain(s[0]) then [s[0]] + Collapse(s[1..], false)
    else (if inRun then "" else "-") + Collapse(s[1..], true)
  }

  function StripLeft(s: string): string {
    if s != "" && s[0] == '-' then StripLeft(s[1..]) else s
  }

  function StripRight(s: string): string {
    if s != "" && s[|s| - 1] == '-' then StripRight(s[..|s| - 1]) else s
  }

  /** `_slug` of a name already lower-cased. */
  function Slug(lowered: string): string {
    var base := StripRight(StripLeft(Collapse(lowered, false)));
    if base == "" then "org" else base
  }

  /** `create_org`: the slug, a dash and eight hex digits. */
  function OrgId(lowered: string, hex: string): string { Slug(lowered) + "-" + hex }

  ghost predicate OnlyPlainAndDash(s: string) { forall i :: 0 <= i < |s| ==> IsPlain(s[i]) || s[i] == '-' }

  lemma {:induction false} CollapseAlphabet(s: string, inRun: bool)
    ensures OnlyPlainAndDash(Collapse(s, inRun))
  {
    if s != "" { CollapseAlphabet(s[1..], !IsPlain(s[0])); }
  }

  lemma {:induction false} StripAlphabet(s: string)
    requires OnlyPlainAndDash(s)
    ensures OnlyPlainAndDash(StripLeft(s)) && OnlyPlainAndDash(StripRight(s))
  {
    if s != "" { StripAlphabet(s[1..]); StripAlphabet(s[..|s| - 1]); }
  }

  /** Whatever the org is called, its id has nothing but [a-z0-9-] in it, so no slash. */
  lemma OrgIdIsSlashFree(lowered: string, hex: string)
    requires forall i :: 0 <= i < |hex| ==> IsPlain(hex[i])
    ensures OnlyPlainAndDash(OrgId(lowered, hex)) && Free(OrgId(lowered, hex), '/')
    ensures var id := OrgId(lowered, hex); |id| > |hex| && id[|id| - |hex| - 1..] == "-" + hex
  {
    CollapseAlphabet(lowered, false);
    StripAlphabet(Collapse(lowered, false));
    StripAlphabet(StripLeft(Collapse(lowered, false)));
  }

  ghost function Plain(s: string): string {
    if s == "" then "" else (if IsPlain(s[0]) then [s[0]] else "") + Plain(s[1..])
  }

  lemma {:induction false} PlainSnoc(s: string, c: char)
    ensures Plain(s + [c]) == Plain(s) + (if IsPlain(c) then [c] else "")
  {
    if s == "" {
      assert s + [c] == [c] && [c][1..] == "";
    } else {
      PlainSnoc(s[1..], c);
      assert (s + [c])[1..] == s[1..] + [c];
    }
  }

  /** No dash follows a dash, and with a run open none comes first. */
  ghost predicate Single(s: string) { forall i :: 0 <= i < |s| - 1 ==> s[i] != '-' || s[i + 1] != '-' }

  lemma {:induction false} CollapseKeeps(s: string, inRun: bool)
    ensures Plain(Collapse(s, inRun)) == Plain(s)
  {
    if s != "" {
      CollapseKeeps(s[1..], !IsPlain(s[0]));
      var rest := Collapse(s[1..], !IsPlain(s[0]));
      if IsPlain(s[0]) {
        assert ([s[0]] + rest)[1..] == rest;
      } else {
        assert ("-" + rest)[1..] == rest && "" + rest == rest && Plain("-" + rest) == "" + Plain(rest);
      }
    }
  }

  lemma {:induction false} CollapseIsSingle(s: string, inRun: bool)
    ensures Single(Collapse(s, inRun)) && (inRun && Collapse(s, inRun) != "" ==> Collapse(s, inRun)[0] != '-')
  {
    if s != "" {
      CollapseIsSingle(s[1..], !IsPlain(s[0]));
      var rest := Collapse(s[1..], !IsPlain(s[0]));
      var head := if IsPlain(s[0]) then [s[0]] else if inRun then "" else "-";
      assert Collapse(s, inRun) == head + rest;
      forall i | 0 <= i < |head + rest| - 1 ensures (head + rest)[i] != '-' || (head + rest)[i + 1] != '-' {
        if i >= |head| { assert rest[i - |head|] != '-' || rest[i - |head| + 1] != '-'; }
      }
    }
  }

  lemma {:induction false} StripLeftKeeps(s: string)
    requires Single(s)
    ensures Plain(StripLeft(s)) == Plain(s) && Single(StripLeft(s)) && (StripLeft(s) != "" ==> StripLeft(s)[0] != '-')
  {
    if s != "" { StripLeftKeeps(s[1..]); }
  }

  lemma {:induction false} StripRightKeeps(s: string)
    ensures Plain(StripRight(s)) == Plain(s) && StripRight(s) <= s
    ensures StripRight(s) != "" ==> StripRight(s)[|StripRight(s)| - 1] != '-'
  {
    if s != "" {
      var n := |s| - 1;
      StripRightKeeps(s[..n]);
      assert s == s[..n] + [s[n]];
      PlainSnoc(s[..n], s[n]);
    }
  }

  /** A slug is the name's own letters and digits in order, with single dashes inside and none at
      either end; a name without any becomes "org". */
  lemma SlugMeaning(lowered: string)
    ensures var slug := Slug(lowered);
      && slug != "" && OnlyPlainAndDash(slug) && Single(slug) && slug[0] != '-' && slug[|slug| - 1] != '-'
      && Plain(slug) == (if Plain(lowered) == "" then "org" else Plain(lowered))
  {
    var c := Collapse(lowered, false);
    CollapseAlphabet(lowered, false);
    CollapseKeeps(lowered, false);
    CollapseIsSingle(lowered, false);
    StripLeftKeeps(c);
    StripRightKeeps(StripLeft(c));
    StripAlphabet(c);
    StripAlphabet(StripLeft(c));
    var base := StripRight(StripLeft(c));
    if base == "" {
      assert Plain("org") == "org" by { assert "org"[1..] == "rg" && "rg"[1..] == "g" && "g"[1..] == ""; }
    } else {
      assert IsPlain(base[0]);
    }
  }

  // ===== scope =====

  /** `_assert_org_scope`. */
  predicate InScope(orgId: string, key: string) { orgId + "/" <= key }

  lemma SlashAfterOrg(a: string, key: string)
    requires InScope(a, key)
    ensures |a| < |key| && key[|a|] == '/' && key[..|a|] == a
  {
    var x := a + "/";
    assert x[|a|] == '/' == key[|a|] && key[..|a|] == x[..|a|];
  }

  lemma NotLonger(a: string, b: string, key: string)
    requires InScope(a, key) && InScope(b, key) && Free(b, '/')
    ensures |b| <= |a|
  {
    SlashAfterOrg(a, key);
    SlashAfterOrg(b, key);
  }

  /** A key accepted for two orgs belongs to one org. */
  lemma OneOrgPerKey(a: string, b: string, key: string)
    requires Free(a, '/') && Free(b, '/') && InScope(a, key) && InScope(b, key)
    ensures a == b
  {
    NotLonger(a, b, key);
    NotLonger(b, a, key);
    SlashAfterOrg(a, key);
    SlashAfterOrg(b, key);
  }

  lemma ShorterFirst(a: string, b: string, key: string)
    requires InScope(a, key) && InScope(b, key) && |a| < |b|
    ensures a + "/" <= b
  {
    SlashAfterOrg(a, key);
    SlashAfterOrg(b, key);
    assert b[..|a| + 1] == key[..|a| + 1] == a + "/";
  }

  /** Two org ids can have a key in common exactly when they are equal or one of them, a slash
      after it, begins the other: what slash-free ids rule out. */
  lemma SharedKeyIff(a: string, b: string)
    ensures (exists key :: InScope(a, key) && InScope(b, key)) <==> a == b || a + "/" <= b || b + "/" <= a
  {
    if key :| InScope(a, key) && InScope(b, key) {
      SlashAfterOrg(a, key);
      SlashAfterOrg(b, key);
      if |a| < |b| { ShorterFirst(a, b, key); } else if |b| < |a| { ShorterFirst(b, a, key); }
    }
    if a == b || a + "/" <= b { assert InScope(a, b + "/") && InScope(b, b + "/"); }
    if b + "/" <= a { assert InScope(a, a + "/") && InScope(b, a + "/"); }
  }

  // ===== filenames =====

  function UploadKey(orgId: string, serviceType: string, stamp: string, filename: string): string {
    orgId + "/" + serviceType + "/" + stamp + "_" + filename
  }

  /** A file is uploaded under its own organisation's prefix and no other's. */
  lemma UploadsAreOwn(orgId: string, serviceType: string, stamp: string, filename: string, other: string)
    requires Free(orgId, '/') && Free(other, '/')
    ensures orgId + "/" + serviceType + "/" <= UploadKey(orgId, serviceType, stamp, filename)
    ensures other + "/" <= UploadKey(orgId, serviceType, stamp, filename) <==> other == orgId
  {
    var key := UploadKey(orgId, serviceType, stamp, filename);
    assert key == orgId + "/" + (serviceType + "/" + stamp + "_" + filename);
    if InScope(other, key) { OneOrgPerKey(other, orgId, key); }
  }

  /** `rsplit("/", 1)[-1]`. */
  function Basename(key: string): string {
    if key == "" then ""
    else if key[|key| - 1] == '/' then ""
    else Basename(key[..|key| - 1]) + [key[|key| - 1]]
  }

  /** What follows the first '_', or nothing. */
  function Tail(s: string): string {
    if s == "" then "" else if s[0] == '_' then s[1..] else Tail(s[1..])
  }

  function FilenameFromKey(key: string): string {
    var basename := Basename(key);
    if Tail(basename) != "" then Tail(basename) else basename
  }

  lemma {:induction false} BasenameOf(front: string, last: string)
    requires Free(last, '/')
    ensures Basename(front + "/" + last) == last
  {
    var key := front + "/" + last;
    if last != "" {
      var n := |last| - 1;
      assert key[..|key| - 1] == front + "/" + last[..n];
      BasenameOf(front, last[..n]);
    }
  }

  lemma {:induction false} BasenameIsSlashFree(key: string)
    ensures Free(Basename(key), '/')
  {
    if key != "" { BasenameIsSlashFree(key[..|key| - 1]); }
  }

  lemma {:induction false} TailOf(front: string, rest: string)
    requires Free(front, '_')
    ensures Tail(front + "_" + rest) == rest
  {
    var s := front + "_" + rest;
    if front == "" {
      assert s[1..] == rest;
    } else {
      assert s[1..] == front[1..] + "_" + rest;
      TailOf(front[1..], rest);
    }
  }

  lemma {:induction false} NoTail(s: string)
    requires Free(s, '_')
    ensures Tail(s) == ""
  {
    if s != "" { NoTail(s[1..]); }
  }

  lemma {:induction false} NoSlash(key: string)
    requires Free(key, '/')
    ensures Basename(key) == key
  {
    if key != "" {
      NoSlash(key[..|key| - 1]);
      assert key[..|key| - 1] + [key[|key| - 1]] == key;
    }
  }

  /** The name shown for any key: of what follows the last slash, what follows the first underscore,
      or all of it when there is no underscore or nothing behind it. */
  lemma FilenameMeaning(dir: string, stamp: string, name: string)
    requires Free(stamp, '/') && Free(stamp, '_') && Free(name, '/')
    ensures FilenameFromKey(dir + "/" + stamp) == FilenameFromKey(stamp) == stamp
    ensures var last := stamp + "_" + name;
      FilenameFromKey(dir + "/" + last) == FilenameFromKey(last) == (if name == "" then last else name)
  {
    var last := stamp + "_" + name;
    BasenameOf(dir, stamp);
    BasenameOf(dir, last);
    NoSlash(stamp);
    NoSlash(last);
    NoTail(stamp);
    TailOf(stamp, name);
  }

  lemma {:induction false} TailIsSlashFree(s: string)
    requires Free(s, '/')
    ensures Free(Tail(s), '/')
  {
    if s != "" { TailIsSlashFree(s[1..]); }
  }

  /** The inbox shows the uploaded name, underscores and all, exactly when the name is not
      empty and has no slash. */
  lemma FilenameRecoveredIff(orgId: string, serviceType: string, stamp: string, filename: string)
    requires Free(stamp, '/') && Free(stamp, '_')
    ensures FilenameFromKey(UploadKey(orgId, serviceType, stamp, filename)) == filename
       <==> filename != "" && Free(filename, '/')
  {
    var key := UploadKey(orgId, serviceType, stamp, filename);
    if Free(filename, '/') {
      var front, last := orgId + "/" + serviceType, stamp + "_" + filename;
      assert key == front + "/" + last;
      BasenameOf(front, last);
      TailOf(stamp, filename);
    } else {
      BasenameIsSlashFree(key);
      TailIsSlashFree(Basename(key));
    }
  }

}
