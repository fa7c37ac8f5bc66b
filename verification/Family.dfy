/** HA family keys: which VM names belong to one clustered service. */
module Family {
  import opened Text

  const ROLE_SUFFIXES: set<string> := {
    "DC", "SQL", "DB", "WEB", "APP", "API", "CACHE", "MQ", "LB", "PROXY", "JUMP", "BASTION", "AUTH", "GW"
  }

  predicate IsSeparator(c: char) { c == '-' || c == '_' }

  /** The tokens between separators; always at least one, possibly empty. */
  function Split(s: string): (parts: seq<string>)
    ensures parts != []
  {
    if s == "" then [""] else
      var rest := Split(s[1..]);
      if IsSeparator(s[0]) then [""] + rest else [[s[0]] + rest[0]] + rest[1..]
  }

  function Join(parts: seq<string>): string { JoinWith("-", parts) }

  function DropTrailingDigits(parts: seq<string>): (r: seq<string>)
    ensures r <= parts
    ensures r == [] || !AllDigits(r[|r| - 1])
  {
    if parts != [] && AllDigits(parts[|parts| - 1]) then DropTrailingDigits(parts[..|parts| - 1]) else parts
  }

  /** What is dropped is numbers, and as many of them as there are at the end. */
  lemma {:induction false} DroppedExactly(parts: seq<string>, r: seq<string>)
    ensures r == DropTrailingDigits(parts) <==>
      r <= parts && (r == [] || !AllDigits(r[|r| - 1])) && forall i :: |r| <= i < |parts| ==> AllDigits(parts[i])
  {
    if parts != [] && AllDigits(parts[|parts| - 1]) {
      var n := |parts| - 1;
      DroppedExactly(parts[..n], r);
      if r <= parts && (r == [] || !AllDigits(r[|r| - 1])) && forall i :: |r| <= i < |parts| ==> AllDigits(parts[i]) {
        assert |r| <= n && r == parts[..|r|] == parts[..n][..|r|];
      }
    } else if r <= parts && forall i :: |r| <= i < |parts| ==> AllDigits(parts[i]) {
      assert |r| == |parts| && r == parts;
    }
  }

  function LowerAll(parts: seq<string>): (r: seq<string>)
    ensures |r| == |parts| && forall i :: 0 <= i < |parts| ==> r[i] == ToLower(parts[i])
  {
    seq(|parts|, i requires 0 <= i < |parts| => ToLower(parts[i]))
  }

  predicate IsRole(roles: set<string>, token: string) { ToUpper(token) in roles }

  /** The tokens that name the service, once trailing numbers are gone. */
  function Stem(name: string): seq<string> { DropTrailingDigits(Split(name)) }

  /** Something other than a bare role or digits is left to group by. */
  predicate HasStem(name: string, roles: set<string> := ROLE_SUFFIXES)
  {
    name != "" && Stem(name) != [] && !(|Stem(name)| == 1 && IsRole(roles, Stem(name)[0]))
  }

  /** The family key. Everything proved about it holds for any set of role suffixes. */
  function FamilyOf(name: string, roles: set<string> := ROLE_SUFFIXES): string
  {
    if name == "" then "" else KeyFrom(name, Stem(name), roles)
  }

  function KeyFrom(name: string, parts: seq<string>, roles: set<string>): string
  {
    if parts == [] then ToLower(name)
    else if !IsRole(roles, parts[|parts| - 1]) then Join(LowerAll(parts))
    else if |parts| == 1 then ToLower(name)
    else Join(LowerAll(parts[..|parts| - 1])) + "-" + ToLower(ToUpper(parts[|parts| - 1]))
  }

  /** The tokenizer as it runs: tokens are popped off the end of a list. */
  method DetectFamily(vmName: string, roles: set<string> := ROLE_SUFFIXES) returns (family: string)
    ensures family == FamilyOf(vmName, roles)
  {
    if vmName == "" {
      return "";
    }
    var parts := Split(vmName);
    while parts != [] && AllDigits(parts[|parts| - 1])
      invariant DropTrailingDigits(parts) == Stem(vmName)
      decreases |parts|
    {
      parts := parts[..|parts| - 1];
    }
    if parts == [] {
      return ToLower(vmName);
    }
    var role := None;
    if IsRole(roles, parts[|parts| - 1]) {
      role := Some(ToUpper(parts[|parts| - 1]));
      parts := parts[..|parts| - 1];
    }
    if parts == [] {
      return ToLower(vmName);
    }
    var base := Join(LowerAll(parts));
    family := if role.Some? then base + "-" + ToLower(role.value) else base;
  }

  // ------------------------------------------------------------------
  // Tokens and joins are inverse
  // ------------------------------------------------------------------

  ghost predicate Token(s: string) { forall c :: c in s ==> !IsSeparator(c) }

  ghost predicate Tokens(parts: seq<string>) { forall i :: 0 <= i < |parts| ==> Token(parts[i]) }

  lemma {:induction false} SplitYieldsTokens(s: string)
    ensures Tokens(Split(s))
  {
    if s != "" {
      SplitYieldsTokens(s[1..]);
    }
  }

  lemma {:induction false} SplitToken(t: string, tail: string)
    requires Token(t)
    ensures Split(t) == [t]
    ensures Split(t + "-" + tail) == [t] + Split(tail)
  {
    if t == "" {
      assert t + "-" + tail == "-" + tail && ("-" + tail)[1..] == tail;
    } else {
      SplitToken(t[1..], tail);
      assert (t + "-" + tail)[1..] == t[1..] + "-" + tail;
      assert t == [t[0]] + t[1..];
      assert t[0] in t;
    }
  }

  /** Splitting undoes joining. */
  lemma {:induction false} SplitJoin(parts: seq<string>)
    requires parts != [] && Tokens(parts)
    ensures Split(Join(parts)) == parts
  {
    if |parts| == 1 {
      SplitToken(parts[0], "");
    } else {
      SplitJoin(parts[1..]);
      SplitToken(parts[0], Join(parts[1..]));
    }
  }

  lemma {:induction false} JoinSnoc(parts: seq<string>, last: string)
    requires parts != []
    ensures Join(parts + [last]) == Join(parts) + "-" + last
  {
    if |parts| == 1 {
      assert (parts + [last])[1..] == [last];
      assert Join([last]) == last;
    } else {
      JoinSnoc(parts[1..], last);
      assert (parts + [last])[1..] == parts[1..] + [last];
      assert Join(parts + [last]) == parts[0] + "-" + (Join(parts[1..]) + "-" + last);
      assert parts[0] + "-" + (Join(parts[1..]) + "-" + last) == (parts[0] + "-" + Join(parts[1..])) + "-" + last;
    }
  }

  // ------------------------------------------------------------------
  // Case folding commutes with tokenizing
  // ------------------------------------------------------------------

  lemma {:induction false} CaseFolding(s: string)
    ensures ToLower(ToLower(s)) == ToLower(s) && ToLower(ToUpper(s)) == ToLower(s)
    ensures ToUpper(ToLower(s)) == ToUpper(s)
    ensures AllDigits(ToLower(s)) == AllDigits(s)
  {
    var l := ToLower(s);
    assert forall i :: 0 <= i < |s| ==> LowerChar(LowerChar(s[i])) == LowerChar(s[i]);
    assert forall i :: 0 <= i < |s| ==> LowerChar(UpperChar(s[i])) == LowerChar(s[i]);
    assert forall i :: 0 <= i < |s| ==> UpperChar(LowerChar(s[i])) == UpperChar(s[i]);
    assert ToLower(l) == l && ToLower(ToUpper(s)) == l && ToUpper(l) == ToUpper(s);
    assert forall i :: 0 <= i < |s| ==> IsDigit(l[i]) == IsDigit(s[i]) && s[i] in s && l[i] in l;
    assert AllDigits(s) <==> s != "" && forall i :: 0 <= i < |s| ==> IsDigit(s[i]);
    assert AllDigits(l) <==> l != "" && forall i :: 0 <= i < |s| ==> IsDigit(l[i]);
  }

  /** Two names that differ only in letter case and in which separator they use. */
  ghost predicate SameSpelling(a: string, b: string)
  {
    |a| == |b| && forall i :: 0 <= i < |a| ==>
      if IsSeparator(a[i]) then IsSeparator(b[i]) else LowerChar(a[i]) == LowerChar(b[i])
  }

  lemma {:induction false} SplitFoldsSpelling(a: string, b: string)
    requires SameSpelling(a, b)
    ensures LowerAll(Split(a)) == LowerAll(Split(b))
  {
    if a != "" {
      SplitFoldsSpelling(a[1..], b[1..]);
      assert if IsSeparator(a[0]) then IsSeparator(b[0]) else LowerChar(a[0]) == LowerChar(b[0]) && !IsSeparator(b[0]);
      LowerCons(a[0], Split(a[1..]));
      LowerCons(b[0], Split(b[1..]));
    }
  }

  /** How lower-casing treats the two ways `Split` puts a character in front. */
  lemma {:induction false} LowerCons(c: char, rest: seq<string>)
    requires rest != []
    ensures LowerAll([""] + rest) == [""] + LowerAll(rest)
    ensures LowerAll([[c] + rest[0]] + rest[1..]) == [[LowerChar(c)] + LowerAll(rest)[0]] + LowerAll(rest)[1..]
  {
    assert ToLower("") == "";
    assert ToLower([c] + rest[0]) == [LowerChar(c)] + ToLower(rest[0]);
  }

  lemma {:induction false} DropCommutesWithLower(parts: seq<string>)
    ensures DropTrailingDigits(LowerAll(parts)) == LowerAll(DropTrailingDigits(parts))
  {
    if parts != [] {
      var n := |parts| - 1;
      CaseFolding(parts[n]);
      if AllDigits(parts[n]) {
        DropCommutesWithLower(parts[..n]);
        assert LowerAll(parts)[..n] == LowerAll(parts[..n]);
      }
    }
  }

  // ------------------------------------------------------------------
  // The key is canonical
  // ------------------------------------------------------------------

  lemma {:induction false} StemTokens(name: string)
    ensures Tokens(Stem(name)) && Tokens(LowerAll(Stem(name)))
  {
    SplitYieldsTokens(name);
    var parts := Stem(name);
    assert forall i :: 0 <= i < |parts| ==> parts[i] == Split(name)[i];
    forall i | 0 <= i < |parts| ensures Token(ToLower(parts[i])) {
      var t, l := parts[i], ToLower(parts[i]);
      assert forall j :: 0 <= j < |t| ==> t[j] in t;
      assert forall j :: 0 <= j < |l| ==> l[j] == LowerChar(t[j]) && !IsSeparator(l[j]);
    }
  }

  lemma {:induction false} KeyFromIsJoin(name: string, parts: seq<string>, roles: set<string>)
    requires parts != [] && !(|parts| == 1 && IsRole(roles, parts[0]))
    ensures KeyFrom(name, parts, roles) == Join(LowerAll(parts))
  {
    var n := |parts| - 1;
    if IsRole(roles, parts[n]) {
      var front, last := LowerAll(parts[..n]), ToLower(parts[n]);
      assert ToLower(ToUpper(parts[n])) == last by { CaseFolding(parts[n]); }
      assert Join(LowerAll(parts)) == Join(front) + "-" + last by {
        JoinSnoc(front, last);
        assert LowerAll(parts) == front + [last];
      }
    }
  }

  /** With a stem, the key is the lower-cased stem, dash-joined. */
  lemma {:induction false} KeyIsJoinedStem(name: string, roles: set<string> := ROLE_SUFFIXES)
    requires HasStem(name, roles)
    ensures FamilyOf(name, roles) == Join(LowerAll(Stem(name)))
  {
    KeyFromIsJoin(name, Stem(name), roles);
  }

  /** Names with a stem share a family exactly when their stems agree up to case. */
  lemma {:induction false} SameFamilyIffSameStem(a: string, b: string, roles: set<string> := ROLE_SUFFIXES)
    requires HasStem(a, roles) && HasStem(b, roles)
    ensures FamilyOf(a, roles) == FamilyOf(b, roles) <==> LowerAll(Stem(a)) == LowerAll(Stem(b))
  {
    KeyIsJoinedStem(a, roles);
    KeyIsJoinedStem(b, roles);
    StemTokens(a);
    StemTokens(b);
    SplitJoin(LowerAll(Stem(a)));
    SplitJoin(LowerAll(Stem(b)));
  }

  lemma {:induction false} StemOfTokens(key: string, parts: seq<string>, roles: set<string>)
    requires key != "" && Split(key) == LowerAll(parts)
    requires parts != [] && !AllDigits(parts[|parts| - 1]) && !(|parts| == 1 && IsRole(roles, parts[0]))
    ensures Stem(key) == LowerAll(parts) && HasStem(key, roles)
  {
    CaseFolding(parts[|parts| - 1]);
    CaseFolding(parts[0]);
  }

  lemma {:induction false} StemOfKey(name: string, roles: set<string> := ROLE_SUFFIXES)
    requires HasStem(name, roles) && FamilyOf(name, roles) != ""
    ensures Stem(FamilyOf(name, roles)) == LowerAll(Stem(name)) && HasStem(FamilyOf(name, roles), roles)
  {
    var parts := Stem(name);
    KeyIsJoinedStem(name, roles);
    StemTokens(name);
    StemOfJoin(parts, roles);
  }

  lemma {:induction false} StemOfJoin(parts: seq<string>, roles: set<string>)
    requires parts != [] && Tokens(LowerAll(parts)) && Join(LowerAll(parts)) != ""
    requires !AllDigits(parts[|parts| - 1]) && !(|parts| == 1 && IsRole(roles, parts[0]))
    ensures Stem(Join(LowerAll(parts))) == LowerAll(parts) && HasStem(Join(LowerAll(parts)), roles)
  {
    SplitJoin(LowerAll(parts));
    StemOfTokens(Join(LowerAll(parts)), parts, roles);
  }

  lemma {:induction false} StemOfLower(name: string, roles: set<string> := ROLE_SUFFIXES)
    ensures Stem(ToLower(name)) == LowerAll(Stem(name))
    ensures HasStem(ToLower(name), roles) == HasStem(name, roles)
  {
    CaseFolding(name);
    assert SameSpelling(name, ToLower(name)) by {
      assert forall i :: 0 <= i < |name| ==> LowerChar(LowerChar(name[i])) == LowerChar(name[i]);
    }
    SplitFoldsSpelling(name, ToLower(name));
    LowerTokensAreLower(ToLower(name));
    DropCommutesWithLower(Split(name));
    if Stem(name) != [] {
      CaseFolding(Stem(name)[0]);
    }
  }

  lemma {:induction false} LowerTokensAreLower(s: string)
    requires ToLower(s) == s
    ensures LowerAll(Split(s)) == Split(s)
  {
    if s != "" {
      assert ToLower(s[1..]) == s[1..];
      LowerTokensAreLower(s[1..]);
      assert s[0] == ToLower(s)[0] == LowerChar(s[0]);
      LowerCons(s[0], Split(s[1..]));
    }
  }

  lemma {:induction false} LowerAllTwice(parts: seq<string>)
    ensures LowerAll(LowerAll(parts)) == LowerAll(parts)
  {
    forall i | 0 <= i < |parts| ensures ToLower(LowerAll(parts)[i]) == LowerAll(parts)[i] {
      CaseFolding(parts[i]);
    }
  }

  /** A family key is its own family key. */
  lemma {:induction false} FamilyIsIdempotent(name: string, roles: set<string> := ROLE_SUFFIXES)
    ensures FamilyOf(FamilyOf(name, roles), roles) == FamilyOf(name, roles)
  {
    var key := FamilyOf(name, roles);
    if HasStem(name, roles) && key != "" {
      StemOfKey(name, roles);
      assert key == Join(LowerAll(Stem(name))) by { KeyIsJoinedStem(name, roles); }
      assert FamilyOf(key, roles) == Join(LowerAll(Stem(key))) by { KeyIsJoinedStem(key, roles); }
      LowerAllTwice(Stem(name));
    } else if !HasStem(name, roles) && name != "" {
      StemOfLower(name, roles);
      CaseFolding(name);
    }
  }

  /** Letter case and the choice of separator never matter, unless nothing but a bare role or digits is left. */
  lemma {:induction false} SpellingDoesNotMatter(a: string, b: string, roles: set<string> := ROLE_SUFFIXES)
    requires SameSpelling(a, b) && HasStem(a, roles)
    ensures HasStem(b, roles) && FamilyOf(a, roles) == FamilyOf(b, roles)
  {
    SplitFoldsSpelling(a, b);
    DropCommutesWithLower(Split(a));
    DropCommutesWithLower(Split(b));
    assert |Stem(a)| == |LowerAll(Stem(a))| == |LowerAll(Stem(b))| == |Stem(b)|;
    CaseFolding(Stem(a)[0]);
    CaseFolding(Stem(b)[0]);
    assert ToLower(Stem(a)[0]) == LowerAll(Stem(a))[0] == LowerAll(Stem(b))[0] == ToLower(Stem(b)[0]);
    SameFamilyIffSameStem(a, b, roles);
  }

  lemma {:induction false} SplitAppendToken(name: string, separator: char, token: string)
    requires IsSeparator(separator) && Token(token)
    ensures Split(name + [separator] + token) == Split(name) + [token]
  {
    if name == "" {
      SplitToken(token, "");
      assert (name + [separator] + token)[1..] == token;
    } else {
      SplitAppendToken(name[1..], separator, token);
      assert (name + [separator] + token)[1..] == name[1..] + [separator] + token;
    }
  }

  /** Numbering the members of a service (`-01`, `_037`) leaves them in one family. */
  lemma {:induction false} TrailingNumberDoesNotMatter(name: string, separator: char, number: string, roles: set<string> := ROLE_SUFFIXES)
    requires HasStem(name, roles) && IsSeparator(separator) && AllDigits(number)
    ensures FamilyOf(name + [separator] + number, roles) == FamilyOf(name, roles)
  {
    SplitAppendToken(name, separator, number);
    var numbered := name + [separator] + number;
    assert Split(numbered)[..|Split(name)|] == Split(name);
    assert Stem(numbered) == Stem(name);
    SameFamilyIffSameStem(numbered, name, roles);
  }

  /** A name without a stem is alone with its own spellings: it never joins anybody's family. */
  lemma {:induction false} StemlessStandsAlone(a: string, b: string, roles: set<string> := ROLE_SUFFIXES)
    requires !HasStem(a, roles) && a != "" && b != ""
    ensures FamilyOf(a, roles) == FamilyOf(b, roles) <==> ToLower(a) == ToLower(b)
  {
    StemOfLower(a, roles);
    StemOfLower(b, roles);
    if HasStem(b, roles) && FamilyOf(a, roles) == FamilyOf(b, roles) {
      assert FamilyOf(b, roles) != "";
      StemOfKey(b, roles);
      assert false;
    }
  }

  /** The tokens of a numbered service name: one token and its number. */
  lemma {:induction false} NumberedToken(token: string, number: string)
    requires Token(token) && !AllDigits(token) && AllDigits(number)
    ensures Stem(token + "-" + number) == [token]
  {
    SplitToken(token, "");
    DigitsAreToken(number);
    SplitAppendToken(token, '-', number);
    assert token + ['-'] + number == token + "-" + number;
    assert Split(token + "-" + number) == [token, number];
    assert [token, number][..1] == [token];
    assert DropTrailingDigits([token]) == [token];
  }

  lemma {:induction false} DigitsAreToken(number: string)
    requires AllDigits(number)
    ensures Token(number)
  {
    forall c | c in number ensures !IsSeparator(c) {
    }
  }

  const BARE_ROLES: seq<string> :=
    ["DC", "SQL", "DB", "WEB", "APP", "API", "CACHE", "MQ", "LB", "PROXY", "JUMP", "BASTION", "AUTH", "GW"]

  /** Which single tokens name a service: all but the fourteen bare roles, in any letter case. Numbered members of a
      service share a family, and numbered VMs of a bare role do not. */
  lemma {:induction false} NumberedMembersExactly(token: string)
    requires Token(token) && token != "" && !AllDigits(token)
    ensures FamilyOf(token + "-01") == FamilyOf(token + "-02") <==> ToUpper(token) !in BARE_ROLES
  {
    OneAndTwo();
    NumberedToken(token, "01");
    NumberedToken(token, "02");
    assert token + "-" + "01" == token + "-01" && token + "-" + "02" == token + "-02";
    BareRolesListed(ToUpper(token));
    NumberedApart(token, token + "-01", token + "-02", ROLE_SUFFIXES);
  }

  lemma {:induction false} BareRolesListed(role: string)
    ensures role in ROLE_SUFFIXES <==> role in BARE_ROLES
  {
  }

  lemma {:induction false} NumberedApart(token: string, a: string, b: string, roles: set<string>)
    requires Stem(a) == [token] && Stem(b) == [token] && a == token + "-01" && b == token + "-02"
    ensures FamilyOf(a, roles) == FamilyOf(b, roles) <==> !IsRole(roles, token)
  {
    NumbersTellApart(token);
    if !IsRole(roles, token) {
      SameFamilyIffSameStem(a, b, roles);
    }
  }

  lemma {:induction false} NumbersTellApart(token: string)
    ensures ToLower(token + "-01") != ToLower(token + "-02")
  {
    var a, b := token + "-01", token + "-02";
    assert a[|token| + 2] == '1' && b[|token| + 2] == '2';
    assert ToLower(a)[|token| + 2] == LowerChar('1') && ToLower(b)[|token| + 2] == LowerChar('2');
  }

  /** Two members of a service with a stem, however many tokens it has. */
  lemma {:induction false} NumberedTogether(stem: string)
    requires HasStem(stem)
    ensures FamilyOf(stem + "-01") == FamilyOf(stem) && FamilyOf(stem + "-02") == FamilyOf(stem)
  {
    OneAndTwo();
    assert stem + "-01" == stem + ['-'] + "01" && stem + "-02" == stem + ['-'] + "02";
    TrailingNumberDoesNotMatter(stem, '-', "01");
    TrailingNumberDoesNotMatter(stem, '-', "02");
  }

  lemma {:induction false} OneAndTwo()
    ensures AllDigits("01") && AllDigits("02")
  {
  }

  // ------------------------------------------------------------------
  // When the key is the name itself
  // ------------------------------------------------------------------

  /** Joining undoes splitting, but for underscores. */
  lemma {:induction false} JoinSplit(s: string)
    ensures Join(Split(s)) == s <==> '_' !in s
  {
    JoinSplitLength(s);
    if s != "" {
      var c, tail := s[0], s[1..];
      JoinSplit(tail);
      JoinSplitStep(c, tail);
      assert s == [c] + tail;
    }
  }

  lemma {:induction false} JoinSplitStep(c: char, tail: string)
    ensures Join(Split([c] + tail)) == (if IsSeparator(c) then "-" else [c]) + Join(Split(tail))
  {
    assert ([c] + tail)[1..] == tail;
    var rest := Split(tail);
    if IsSeparator(c) {
      assert ([""] + rest)[1..] == rest;
    } else {
      assert ([[c] + rest[0]] + rest[1..])[1..] == rest[1..];
    }
  }

  lemma {:induction false} JoinSplitLength(s: string)
    ensures |Join(Split(s))| == |s|
  {
    if s != "" {
      JoinSplitLength(s[1..]);
      JoinSplitStep(s[0], s[1..]);
      assert s == [s[0]] + s[1..];
    }
  }

  lemma {:induction false} LowerKeepsUnderscores(s: string)
    ensures '_' in ToLower(s) <==> '_' in s
  {
    if '_' in s {
      var i :| 0 <= i < |s| && s[i] == '_';
      assert ToLower(s)[i] == '_';
    }
    if '_' in ToLower(s) {
      var i :| 0 <= i < |s| && ToLower(s)[i] == '_';
      assert s[i] == '_';
    }
  }

  lemma {:induction false} SplitLower(s: string)
    ensures Split(ToLower(s)) == LowerAll(Split(s))
  {
    CaseFolding(s);
    SplitFoldsSpelling(s, ToLower(s));
    LowerTokensAreLower(ToLower(s));
  }

  lemma {:induction false} VerbatimStem(name: string, roles: set<string> := ROLE_SUFFIXES)
    requires HasStem(name, roles)
    ensures FamilyOf(name, roles) == ToLower(name) <==> Stem(name) == Split(name) && '_' !in name
  {
    KeyIsJoinedStem(name, roles);
    StemTokens(name);
    SplitJoin(LowerAll(Stem(name)));
    SplitLower(name);
    JoinSplit(ToLower(name));
    LowerKeepsUnderscores(name);
    if FamilyOf(name, roles) == ToLower(name) {
      assert |Stem(name)| == |Split(name)|;
    }
  }

  /** The key is the lower-cased name verbatim exactly when no stem is left, or nothing was dropped from the name and
      it has no underscore. */
  lemma {:induction false} VerbatimExactly(name: string, roles: set<string> := ROLE_SUFFIXES)
    ensures FamilyOf(name, roles) == ToLower(name) <==>
      !HasStem(name, roles) || (Stem(name) == Split(name) && '_' !in name)
  {
    if HasStem(name, roles) {
      VerbatimStem(name, roles);
    }
  }

  /** A name without any pattern to it that does not come back verbatim. */
  lemma {:induction false} UnderscoreExample()
    ensures HasStem("my" + ['_'] + "vm")
    ensures FamilyOf("my" + ['_'] + "vm") == "my-vm" != ToLower("my" + ['_'] + "vm")
  {
    PlainTokens();
    TwoTokens("my", '_', "vm");
    UnderscoreIsRewritten("my", "vm");
    MyVmJoined();
  }

  lemma {:induction false} PlainTokens()
    ensures Token("my") && Token("vm") && !AllDigits("vm")
  {
    assert "vm"[0] == 'v' && 'v' in "vm";
  }

  lemma {:induction false} MyVmJoined()
    ensures Join(LowerAll(["my", "vm"])) == "my-vm"
  {
    assert LowerChar('m') == 'm' && LowerChar('y') == 'y' && LowerChar('v') == 'v';
    assert ToLower("my") == "my" && ToLower("vm") == "vm";
    assert LowerAll(["my", "vm"]) == ["my"] + ["vm"];
    assert Join(["my"]) == "my";
    JoinSnoc(["my"], "vm");
  }

  lemma {:induction false} UnderscoreIsRewritten(first: string, second: string)
    ensures ToLower(first + ['_'] + second) != Join(LowerAll([first, second]))
  {
    var name := first + ['_'] + second;
    assert name[|first|] == '_' && ToLower(name)[|first|] == '_';
    JoinSnoc([ToLower(first)], ToLower(second));
    assert LowerAll([first, second]) == [ToLower(first)] + [ToLower(second)];
    assert Join([ToLower(first)]) == ToLower(first);
    assert Join(LowerAll([first, second]))[|first|] == '-';
  }

  /** A name of two tokens that are not numbers. */
  lemma {:induction false} TwoTokens(first: string, separator: char, second: string, roles: set<string> := ROLE_SUFFIXES)
    requires Token(first) && Token(second) && IsSeparator(separator) && !AllDigits(second)
    ensures var name := first + [separator] + second;
      && Stem(name) == [first, second] && HasStem(name, roles)
      && FamilyOf(name, roles) == Join(LowerAll([first, second]))
  {
    var name := first + [separator] + second;
    SplitToken(first, "");
    SplitAppendToken(first, separator, second);
    assert Split(name) == [first, second];
    KeyIsJoinedStem(name, roles);
  }
}
