/**
 * The upgrade gate of the ValidateVersion phase: the tool's own version is compared with
 * the version already running on the cluster. Its implementation file is not part of this
 * model; what is stated here is what its nine examples pin down, plus the structure every
 * decision has (a downgrade never passes, the context changes in one key at most, the
 * flag is only ever set to true).
 */
module ValidateVersion {
  import opened Wrappers
  import opened Strings
  import opened SemVer

  const UnsafeUpgrade := "unsafe_upgrade"

  /** Raising "Downgrade ...", raising on unparsable text, or passing with the new cluster context. */
  datatype Outcome = Downgrade(cluster: string, tool: string) | Malformed(text: string) | Proceed(context: map<string, bool>)

  /** The tool's MAJOR.MINOR line is later than the cluster's. */
  predicate LineAhead(tool: Version, cluster: Version)
  {
    tool.major > cluster.major || (tool.major == cluster.major && tool.minor > cluster.minor)
  }

  /**
   * `validate_version(cluster)` run by a tool at version `tool`: a cluster version of higher
   * precedence is a downgrade; a tool on a later minor (or major) line marks the run
   * unsafe; anything else passes and leaves the context as it was.
   */
  function Validate(tool: string, cluster: string, ctx: map<string, bool>): (r: Outcome)
    ensures r.Proceed? ==> r.context == ctx || r.context == ctx[UnsafeUpgrade := true]
    ensures r.Downgrade? ==> r.cluster == cluster && r.tool == tool
  {
    match (Parse(tool), Parse(cluster))
    case (None, _) => Malformed(tool)
    case (_, None) => Malformed(cluster)
    case (Some(t), Some(c)) =>
      if Compare(c, t) == Greater then Downgrade(cluster, tool)
      else if LineAhead(t, c) then Proceed(ctx[UnsafeUpgrade := true])
      else Proceed(ctx)
  }

  /** Exactly the cluster versions of higher precedence than the tool's are refused. */
  lemma DowngradeExactly(tool: string, cluster: string, ctx: map<string, bool>)
    requires Parse(tool).Some? && Parse(cluster).Some?
    ensures Validate(tool, cluster, ctx).Downgrade? <==> Compare(Parse(cluster).value, Parse(tool).value) == Greater
    ensures !Validate(tool, cluster, ctx).Downgrade? ==> Validate(tool, cluster, ctx).Proceed?
  {
  }

  /** Every key other than the flag keeps its value, and a flag already set stays set. */
  lemma ContextOnlyGainsFlag(tool: string, cluster: string, ctx: map<string, bool>, k: string)
    requires Validate(tool, cluster, ctx).Proceed?
    ensures var out := Validate(tool, cluster, ctx).context;
      (k != UnsafeUpgrade ==> (k in out <==> k in ctx) && (k in ctx ==> out[k] == ctx[k]))
      && (UnsafeUpgrade in ctx && ctx[UnsafeUpgrade] ==> UnsafeUpgrade in out && out[UnsafeUpgrade])
  {
  }

  /** Re-running any valid version against itself passes and leaves the context alone. */
  lemma ReUpIsNoOp(s: string, ctx: map<string, bool>)
    requires Parse(s).Some?
    ensures Validate(s, s, ctx) == Proceed(ctx)
  {
    var v := Parse(s).value;
    CompareAntisymmetric(v, v);
  }

  /** The flag never appears on a pass unless the tool's line is ahead of the cluster's. */
  lemma FlagOnlyAcrossLines(tool: string, cluster: string, ctx: map<string, bool>)
    requires Parse(tool).Some? && Parse(cluster).Some?
    requires Validate(tool, cluster, ctx).Proceed?
    ensures Validate(tool, cluster, ctx).context != ctx ==> LineAhead(Parse(tool).value, Parse(cluster).value)
  {
  }

  // ---------------------------------------------------------------------------
  // The nine examples of spec/pharos/phases/validate_version_spec.rb

  lemma ParsesTo(s: string, v: Version)
    requires WellFormed(v) && s == Format(v)
    ensures Parse(s) == Some(v)
  {
    ParseFormat(v);
  }

  const Alpha1 := [Alphanumeric("alpha"), Numeric(1)]
  const Alpha2 := [Alphanumeric("alpha"), Numeric(2)]

  lemma FormatAlpha(major: nat, minor: nat, patch: nat, n: nat)
    requires major < 10 && minor < 10 && patch < 10 && n < 10
    ensures Format(Version(major, minor, patch, [Alphanumeric("alpha"), Numeric(n)]))
      == [DigitChar(major), '.', DigitChar(minor), '.', DigitChar(patch), '-', 'a', 'l', 'p', 'h', 'a', '.', DigitChar(n)]
    ensures WellFormed(Version(major, minor, patch, [Alphanumeric("alpha"), Numeric(n)]))
  {
    var pre := [Alphanumeric("alpha"), Numeric(n)];
    assert IdentTexts(pre) == ["alpha", [DigitChar(n)]];
    assert Join(["alpha", [DigitChar(n)]], '.') == "alpha" + "." + [DigitChar(n)];
    assert !AllDigits("alpha") by { assert !IsDigit("alpha"[0]); }
  }

  lemma Parse133()
    ensures Parse("1.3.3") == Some(Version(1, 3, 3, []))
  {
    ParsesTo("1.3.3", Version(1, 3, 3, []));
  }

  lemma Parse200()
    ensures Parse("2.0.0") == Some(Version(2, 0, 0, []))
  {
    ParsesTo("2.0.0", Version(2, 0, 0, []));
  }

  lemma Parse201()
    ensures Parse("2.0.1") == Some(Version(2, 0, 1, []))
  {
    ParsesTo("2.0.1", Version(2, 0, 1, []));
  }

  lemma Parse210()
    ensures Parse("2.1.0") == Some(Version(2, 1, 0, []))
  {
    ParsesTo("2.1.0", Version(2, 1, 0, []));
  }

  lemma Parse200Alpha1()
    ensures Parse("2.0.0-alpha.1") == Some(Version(2, 0, 0, Alpha1))
  {
    FormatAlpha(2, 0, 0, 1);
    ParsesTo("2.0.0-alpha.1", Version(2, 0, 0, Alpha1));
  }

  lemma Parse200Alpha2()
    ensures Parse("2.0.0-alpha.2") == Some(Version(2, 0, 0, Alpha2))
  {
    FormatAlpha(2, 0, 0, 2);
    ParsesTo("2.0.0-alpha.2", Version(2, 0, 0, Alpha2));
  }

  lemma Parse201Alpha1()
    ensures Parse("2.0.1-alpha.1") == Some(Version(2, 0, 1, Alpha1))
  {
    FormatAlpha(2, 0, 1, 1);
    ParsesTo("2.0.1-alpha.1", Version(2, 0, 1, Alpha1));
  }

  /** "allows re-up for stable releases" */
  lemma ReUpStable(ctx: map<string, bool>)
    ensures Validate("1.3.3", "1.3.3", ctx) == Proceed(ctx)
  {
    Parse133();
  }

  /** "allows re-up for development releases" */
  lemma ReUpDevelopment(ctx: map<string, bool>)
    ensures Validate("2.0.0-alpha.1", "2.0.0-alpha.1", ctx) == Proceed(ctx)
  {
    Parse200Alpha1();
    ReUpIsNoOp("2.0.0-alpha.1", ctx);
  }

  /** "allows upgrade from patch-release to another" */
  lemma PatchUpgrade(ctx: map<string, bool>)
    ensures Validate("2.0.1", "2.0.0", ctx) == Proceed(ctx)
  {
    Parse201();
    Parse200();
  }

  /** "allows upgrade from patch-release to development patch-release" */
  lemma PatchUpgradeToDevelopment(ctx: map<string, bool>)
    ensures Validate("2.0.1-alpha.1", "2.0.0", ctx) == Proceed(ctx)
  {
    Parse201Alpha1();
    Parse200();
  }

  lemma Alpha2AfterAlpha1()
    ensures Compare(Version(2, 0, 0, Alpha2), Version(2, 0, 0, Alpha1)) == Greater
  {
    CompareTextSame("alpha", "alpha");
    assert CompareIdent(Alpha2[0], Alpha1[0]) == Same;
    assert Alpha2[1..] == [Numeric(2)] && Alpha1[1..] == [Numeric(1)];
  }

  /** "does not allow downgrade on development releases" */
  lemma DowngradeDevelopment(ctx: map<string, bool>)
    ensures Validate("2.0.0-alpha.1", "2.0.0-alpha.2", ctx).Downgrade?
  {
    Parse200Alpha1();
    Parse200Alpha2();
    Alpha2AfterAlpha1();
  }

  /** "does not allow downgrade on stable releases" */
  lemma DowngradeStable(ctx: map<string, bool>)
    ensures Validate("1.3.3", "2.0.0", ctx).Downgrade?
  {
    Parse133();
    Parse200();
  }

  /** "does not allow downgrade from stable to prerelease" */
  lemma DowngradeStableToPrerelease(ctx: map<string, bool>)
    ensures Validate("2.0.0-alpha.1", "2.0.0", ctx).Downgrade?
  {
    Parse200Alpha1();
    Parse200();
  }

  /** "does not allow downgrade from prerelease to stable" */
  lemma DowngradePrereleaseToStable(ctx: map<string, bool>)
    ensures Validate("2.0.0", "2.0.1-alpha.1", ctx).Downgrade?
  {
    Parse200();
    Parse201Alpha1();
  }

  /** "does not allow upgrade to point-release": it passes, but the flag changes (here from absent to true). */
  lemma MinorUpgradeFlagged(ctx: map<string, bool>)
    requires UnsafeUpgrade !in ctx
    ensures Validate("2.1.0", "2.0.0", ctx) == Proceed(ctx[UnsafeUpgrade := true])
  {
    Parse210();
    Parse200();
  }
}
