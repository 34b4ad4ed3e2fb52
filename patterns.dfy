/** The licence classifier (config/patterns.py). The regular-expression
    search and the lower-casing are injected: `search(p, t)` says whether
    pattern `p` matches somewhere in text `t`, `lower` is str.lower(). */
module Patterns {
  import opened Common

  /** The two text columns a decision can be drawn from. */
  datatype Source = LicenseText | PermitText

  /** SOURCE_PRIORITY: licence conclusions first, then permit explanations. */
  const SourcePriority: seq<Source> := [LicenseText, PermitText]

  /** The loop of _check_patterns: true at the first pattern that matches. */
  function AnyMatch<P>(patterns: seq<P>, text: string, search: (P, string) -> bool): (found: bool)
    ensures found <==> exists i | 0 <= i < |patterns| :: search(patterns[i], text)
  {
    if patterns == [] then false
    else if search(patterns[0], text) then true
    else
      var rest := AnyMatch(patterns[1..], text, search);
      assert forall i | 1 <= i < |patterns| :: patterns[i] == patterns[1..][i - 1];
      rest
  }

  /** _check_patterns: a missing or empty text matches nothing; otherwise the
      lower-cased text is searched with every pattern. */
  function CheckPatterns<P>(text: Option<string>, patterns: seq<P>, search: (P, string) -> bool, lower: string -> string): (found: bool)
    ensures found <==> text.Some? && text.value != [] && exists i | 0 <= i < |patterns| :: search(patterns[i], lower(text.value))
  {
    if text.None? || text.value == [] then false
    else AnyMatch(patterns, lower(text.value), search)
  }

  /** The order of the patterns in a list does not change the result. */
  lemma PatternOrderIrrelevant<P>(ps: seq<P>, qs: seq<P>, text: Option<string>, search: (P, string) -> bool, lower: string -> string)
    requires multiset(ps) == multiset(qs)
    ensures CheckPatterns(text, ps, search, lower) == CheckPatterns(text, qs, search, lower)
  {
    if text.Some? && text.value != [] {
      var t := lower(text.value);
      if i :| 0 <= i < |ps| && search(ps[i], t) {
        assert ps[i] in multiset(qs);
        var j :| 0 <= j < |qs| && qs[j] == ps[i];
      }
      if j :| 0 <= j < |qs| && search(qs[j], t) {
        assert qs[j] in multiset(ps);
        var i :| 0 <= i < |ps| && ps[i] == qs[j];
      }
    }
  }

  /** The decision one source yields on its own, None when it is skipped
      (missing or empty) or matches neither list. */
  function SourceDecision<P>(text: Option<string>, required: seq<P>, notRequired: seq<P>, search: (P, string) -> bool, lower: string -> string): Option<bool> {
    if text.None? || text.value == [] then None
    else if CheckPatterns(text, required, search, lower) then Some(true)
    else if CheckPatterns(text, notRequired, search, lower) then Some(false)
    else None
  }

  function TextOf(source: Source, permitText: Option<string>, licenseText: Option<string>): Option<string> {
    if source == LicenseText then licenseText else permitText
  }

  /** The loop of determine_license_need over the sources in priority order. */
  function Decide<P>(sources: seq<Source>, permitText: Option<string>, licenseText: Option<string>,
                     required: seq<P>, notRequired: seq<P>, search: (P, string) -> bool, lower: string -> string): Option<bool>
  {
    if sources == [] then None
    else
      var text := TextOf(sources[0], permitText, licenseText);
      if text.None? || text.value == [] then
        Decide(sources[1..], permitText, licenseText, required, notRequired, search, lower)
      else if CheckPatterns(text, required, search, lower) then Some(true)
      else if CheckPatterns(text, notRequired, search, lower) then Some(false)
      else Decide(sources[1..], permitText, licenseText, required, notRequired, search, lower)
  }

  /** determine_license_need: Some(true) when a licence is required,
      Some(false) when it is not, None when no source decides. */
  function DetermineLicenseNeed<P>(permitText: Option<string>, licenseText: Option<string>,
                                   required: seq<P>, notRequired: seq<P>, search: (P, string) -> bool, lower: string -> string): Option<bool>
  {
    Decide(SourcePriority, permitText, licenseText, required, notRequired, search, lower)
  }

  /** The loop over the priority list returns the decision of the first
      source that decides. */
  lemma {:induction false} DecideFirst<P>(sources: seq<Source>, permitText: Option<string>, licenseText: Option<string>,
                                          required: seq<P>, notRequired: seq<P>, search: (P, string) -> bool, lower: string -> string)
    ensures var d := Decide(sources, permitText, licenseText, required, notRequired, search, lower);
      && (d.None? <==> forall i | 0 <= i < |sources| ::
            SourceDecision(TextOf(sources[i], permitText, licenseText), required, notRequired, search, lower).None?)
      && (d.Some? ==> exists i | 0 <= i < |sources| ::
            && d == SourceDecision(TextOf(sources[i], permitText, licenseText), required, notRequired, search, lower)
            && forall j | 0 <= j < i ::
                 SourceDecision(TextOf(sources[j], permitText, licenseText), required, notRequired, search, lower).None?)
  {
    if sources != [] {
      DecideFirst(sources[1..], permitText, licenseText, required, notRequired, search, lower);
      var d0 := SourceDecision(TextOf(sources[0], permitText, licenseText), required, notRequired, search, lower);
      var d := Decide(sources, permitText, licenseText, required, notRequired, search, lower);
      assert forall i | 1 <= i < |sources| :: sources[i] == sources[1..][i - 1];
      if d0.Some? {
        assert d == d0;
      } else {
        var rest := Decide(sources[1..], permitText, licenseText, required, notRequired, search, lower);
        assert d == rest;
        if rest.Some? {
          var i :| && 0 <= i < |sources[1..]|
            && rest == SourceDecision(TextOf(sources[1..][i], permitText, licenseText), required, notRequired, search, lower)
            && forall j | 0 <= j < i ::
                 SourceDecision(TextOf(sources[1..][j], permitText, licenseText), required, notRequired, search, lower).None?;
          assert forall j | 0 <= j < i + 1 ::
            SourceDecision(TextOf(sources[j], permitText, licenseText), required, notRequired, search, lower).None? by {
            forall j | 0 <= j < i + 1
              ensures SourceDecision(TextOf(sources[j], permitText, licenseText), required, notRequired, search, lower).None?
            {
              if j > 0 { assert sources[j] == sources[1..][j - 1]; }
            }
          }
        }
      }
    }
  }

  /** The classification is the licence text's decision when it has one,
      otherwise the permit text's. */
  lemma LicenseThenPermit<P>(permitText: Option<string>, licenseText: Option<string>,
                             required: seq<P>, notRequired: seq<P>, search: (P, string) -> bool, lower: string -> string)
    ensures var license := SourceDecision(licenseText, required, notRequired, search, lower);
            var permit := SourceDecision(permitText, required, notRequired, search, lower);
            DetermineLicenseNeed(permitText, licenseText, required, notRequired, search, lower)
              == if license.Some? then license else permit
  {
    DecideFirst(SourcePriority, permitText, licenseText, required, notRequired, search, lower);
  }

  /** Both texts missing or empty: undetermined. */
  lemma NoTextUndetermined<P>(permitText: Option<string>, licenseText: Option<string>,
                              required: seq<P>, notRequired: seq<P>, search: (P, string) -> bool, lower: string -> string)
    requires permitText.None? || permitText.value == []
    requires licenseText.None? || licenseText.value == []
    ensures DetermineLicenseNeed(permitText, licenseText, required, notRequired, search, lower).None?
  {
    LicenseThenPermit(permitText, licenseText, required, notRequired, search, lower);
  }

  /** A licence text that matches a "required" pattern decides, whatever the
      permit text says. */
  lemma LicenseRequiredWins<P>(permitText: Option<string>, licenseText: Option<string>,
                               required: seq<P>, notRequired: seq<P>, search: (P, string) -> bool, lower: string -> string)
    requires CheckPatterns(licenseText, required, search, lower)
    ensures DetermineLicenseNeed(permitText, licenseText, required, notRequired, search, lower) == Some(true)
  {
    LicenseThenPermit(permitText, licenseText, required, notRequired, search, lower);
  }

  /** Within one source the "required" list is tried first: a text matching
      both lists is classified as requiring a licence. */
  lemma RequiredBeforeNotRequired<P>(text: Option<string>, required: seq<P>, notRequired: seq<P>,
                                     search: (P, string) -> bool, lower: string -> string)
    requires CheckPatterns(text, required, search, lower) && CheckPatterns(text, notRequired, search, lower)
    ensures SourceDecision(text, required, notRequired, search, lower) == Some(true)
    ensures DetermineLicenseNeed(None, text, required, notRequired, search, lower) == Some(true)
    ensures DetermineLicenseNeed(text, None, required, notRequired, search, lower) == Some(true)
  {
    LicenseThenPermit(None, text, required, notRequired, search, lower);
    LicenseThenPermit(text, None, required, notRequired, search, lower);
  }

  /** A licence text that matches neither list falls through to the permit text. */
  lemma UnmatchedFallsThrough<P>(permitText: Option<string>, licenseText: Option<string>,
                                 required: seq<P>, notRequired: seq<P>, search: (P, string) -> bool, lower: string -> string)
    requires !CheckPatterns(licenseText, required, search, lower) && !CheckPatterns(licenseText, notRequired, search, lower)
    ensures DetermineLicenseNeed(permitText, licenseText, required, notRequired, search, lower)
         == SourceDecision(permitText, required, notRequired, search, lower)
  {
    LicenseThenPermit(permitText, licenseText, required, notRequired, search, lower);
  }
}
