/** Whether the namespace derived from an application's name is one that a cluster accepts. */
module NamespaceNames {
  import opened Text
  import opened Mapping
  import opened MtvDocuments
  import opened MtvExact

  ghost predicate SlugText(s: string) { forall i :: 0 <= i < |s| ==> LowerOrDigit(s[i]) || s[i] == '-' }

  lemma {:induction false} LoweredLetters(s: string)
    ensures forall i :: 0 <= i < |s| ==> (IsAlphaNumeric(ToLower(s)[i]) ==> LowerOrDigit(ToLower(s)[i]))
  {
  }

  lemma {:induction false} DashedIsSlugText(t: string, last: bool)
    requires forall i :: 0 <= i < |t| ==> (IsAlphaNumeric(t[i]) ==> LowerOrDigit(t[i]))
    ensures SlugText(DashRuns(t, last))
  {
    if t != "" {
      DashedIsSlugText(t[1..], !IsAlphaNumeric(t[0]));
    }
  }

  lemma {:induction false} DroppedIsSlugText(s: string)
    requires SlugText(s)
    ensures var d := DropDashes(s); SlugText(d) && (d != "" ==> d[0] != '-' && d[|d| - 1] != '-')
    decreases |s|
  {
    if s != "" && s[0] == '-' {
      DroppedIsSlugText(s[1..]);
    } else if s != "" && s[|s| - 1] == '-' {
      DroppedIsSlugText(s[..|s| - 1]);
    }
  }

  /** A slug has lower-case letters, digits and dashes only, and a letter or digit at either end. */
  lemma {:induction false} SlugIsClean(s: string)
    ensures var slug := Slugify(s);
      slug != "" && SlugText(slug) && LowerOrDigit(slug[0]) && LowerOrDigit(slug[|slug| - 1])
  {
    LoweredLetters(s);
    DashedIsSlugText(ToLower(s), false);
    DroppedIsSlugText(DashRuns(ToLower(s), false));
    UnassignedIsClean();
  }

  lemma {:induction false} UnassignedIsClean()
    ensures SlugText("unassigned")
  {
  }

  /** What a prefix must be for names to begin with it. */
  predicate GoodPrefix(prefix: string)
  {
    prefix == "" || (LowerOrDigit(prefix[0]) && Clean(prefix))
  }

  lemma {:induction false} PrefixStays(prefix: string, rest: string)
    requires prefix != "" && Clean(prefix + rest)
    ensures Clean(prefix) && (prefix + rest)[0] == prefix[0]
  {
    forall i | 0 <= i < |prefix| ensures SubdomainChar(prefix[i]) {
      assert (prefix + rest)[i] == prefix[i];
    }
  }

  lemma {:induction false} TailIsClean(slug: string)
    requires SlugText(slug)
    ensures Clean("-" + slug + "-vms") && ("-" + slug + "-vms")[|slug| + 4] == 's'
  {
    assert Clean(slug) && Clean("-") && Clean("-vms");
    CleanConcat("-", slug);
    CleanConcat("-" + slug, "-vms");
  }

  /** The namespace of an application is a DNS-1123 name exactly when the configured prefix is fit to begin one and the
      whole has at most 253 characters, whatever the application is called. */
  lemma {:induction false} ApplicationNamespaceExactly(prefix: string, app: string)
    requires app != ""
    ensures IsDns1123(ApplicationNamespace(prefix, app)) <==> GoodPrefix(prefix) && |ApplicationNamespace(prefix, app)| <= 253
  {
    var ns, first := ApplicationNamespace(prefix, app), OrElse(prefix, "app");
    var rest := "-" + Slugify(app) + "-vms";
    SlugIsClean(app);
    TailIsClean(Slugify(app));
    assert ns == first + rest && ns[|ns| - 1] == rest[|rest| - 1] == 's';
    assert WithoutFinalNewline(ns) == ns;
    if IsDns1123(ns) {
      PrefixStays(first, rest);
    }
    if GoodPrefix(prefix) && |ns| <= 253 {
      assert Clean(first) && LowerOrDigit(first[0]);
      CleanConcat(first, rest);
      CleanNameFits(ns);
    }
  }
}
