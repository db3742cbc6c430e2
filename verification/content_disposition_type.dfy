/** The Content-Disposition types and their lookup by mode string. */
module ContentDispositionTypeEnum {
  import opened Wrappers
  import Ascii

  datatype DispositionType = Inline | Attachment | FormData {
    /** getMode: the type's token in the header. */
    function Mode(): (m: string)
      ensures m != [] && Ascii.IsLowerCase(m)
      ensures ';' !in m
    {
      match this
      case Inline => "inline"
      case Attachment => "attachment"
      case FormData => "form-data"
    }

    /** matches: the mode equals `name` ignoring case; never a null `name`. */
    predicate Matches(name: Option<string>)
      ensures Matches(name) <==> name.Some? && Ascii.ToLower(name.value) == Mode()
    {
      if name.None? then false
      else
        Ascii.EqualsIgnoreCaseLower(Mode(), name.value);
        Ascii.EqualsIgnoreCase(Mode(), name)
    }
  }

  /** The three modes are pairwise distinct. */
  lemma ModesDistinct(a: DispositionType, b: DispositionType)
    ensures a.Mode() == b.Mode() ==> a == b
  {
  }

  /** mappings: each type under its own mode, as the static block fills it from values(). */
  const Mappings: map<string, DispositionType> :=
    map[Inline.Mode() := Inline, Attachment.Mode() := Attachment, FormData.Mode() := FormData]

  /** resolve: look up the lower-cased mode; null or an unknown mode gives null. */
  function Resolve(mode: Option<string>): (r: Option<DispositionType>)
    ensures mode.None? ==> r.None?
    ensures r.Some? ==> mode.Some? && Ascii.ToLower(mode.value) == r.value.Mode()
  {
    if mode.None? then None
    else
      var key := Ascii.ToLower(mode.value);
      if key in Mappings then Some(Mappings[key]) else None
  }

  /** Every type is found again from its own mode. */
  lemma ResolveRoundTrip(t: DispositionType)
    ensures Resolve(Some(t.Mode())) == Some(t)
  {
    assert Ascii.ToLower(t.Mode()) == t.Mode();
  }

  /** `matches` and `resolve` agree: a name matches a type exactly when it resolves to it. */
  lemma MatchesIffResolves(t: DispositionType, name: Option<string>)
    ensures t.Matches(name) <==> Resolve(name) == Some(t)
  {
    if name.Some? {
      Ascii.EqualsIgnoreCaseLower(t.Mode(), name.value);
    }
  }

  /** Lookup ignores case: two names with the same lower-case form resolve alike. */
  lemma ResolveIgnoresCase(a: string, b: string)
    requires Ascii.ToLower(a) == Ascii.ToLower(b)
    ensures Resolve(Some(a)) == Resolve(Some(b))
  {
  }

  lemma ResolveExamples()
    ensures Resolve(Some("Inline")) == Some(Inline)
    ensures Resolve(None) == None
  {
    assert Ascii.ToLower("Inline") == "inline";
  }
}
