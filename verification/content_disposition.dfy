/**
 * The HTTP Content-Disposition header object: a disposition type, an optional
 * form-field name and an optional file name, rendered as
 * `mode[;name="..."][;filename="..."]` in the shape of section 4.1 of RFC 6266
 * (no quoting or escaping of the values).
 */
module ContentDispositionHeader {
  import opened Wrappers
  import Ascii
  import opened ContentDispositionTypeEnum

  const NameLabel: string := ";name=\""
  const FilenameLabel: string := ";filename=\""

  /** A parameter as `toString` appends it: nothing when the value is blank, otherwise tag, value, closing quote. */
  function Param(tag: string, v: Option<string>): string {
    if Ascii.IsBlank(v) then "" else tag + v.value + "\""
  }

  /** The text `toString` produces for the three fields. */
  function Header(t: DispositionType, name: Option<string>, filename: Option<string>): string {
    t.Mode() + Param(NameLabel, name) + Param(FilenameLabel, filename)
  }

  /** A value as it survives into the header: a blank value is not written at all. */
  function Present(v: Option<string>): (r: Option<string>)
    ensures r.None? <==> Ascii.IsBlank(v)
    ensures r.Some? ==> r == v
  {
    if Ascii.IsBlank(v) then None else v
  }

  class ContentDisposition {
    var dtype: DispositionType
    var name: Option<string>
    var filename: Option<string>

    /** The three-argument constructor, with `name` stored as given. */
    constructor(t: DispositionType, name: Option<string>, filename: Option<string>)
      ensures dtype == t && this.name == name && this.filename == filename
    {
      dtype := t;
      this.name := name;
      this.filename := filename;
    }

    /** The three-argument constructor as written: it stores `filename` into `name` as well. */
    constructor AsWritten(t: DispositionType, name: Option<string>, filename: Option<string>)
      ensures dtype == t && this.name == filename && this.filename == filename
    {
      dtype := t;
      this.name := filename;
      this.filename := filename;
    }

    /** No arguments: an inline disposition with neither name nor file name. */
    constructor Default()
      ensures dtype == Inline && name.None? && filename.None?
    {
      dtype := Inline;
      name := None;
      filename := None;
    }

    /** A type alone: no name and no file name. */
    constructor OfType(t: DispositionType)
      ensures dtype == t && name.None? && filename.None?
    {
      dtype := t;
      name := None;
      filename := None;
    }

    /** A file name alone: an inline disposition without a name. */
    constructor OfFilename(filename: Option<string>)
      ensures dtype == Inline && name.None? && this.filename == filename
    {
      dtype := Inline;
      name := None;
      this.filename := filename;
    }

    /** A name and a file name: an inline disposition. */
    constructor OfNameAndFilename(name: Option<string>, filename: Option<string>)
      ensures dtype == Inline && this.name == name && this.filename == filename
    {
      dtype := Inline;
      this.name := name;
      this.filename := filename;
    }

    /** A type and a file name: no name. */
    constructor OfTypeAndFilename(t: DispositionType, filename: Option<string>)
      ensures dtype == t && name.None? && this.filename == filename
    {
      dtype := t;
      name := None;
      this.filename := filename;
    }

    // The shorter constructors as written: each delegates to the three-argument
    // constructor, so each inherits its slip and stores the file name as the name.

    /** A file name alone, as written: the file name is also stored as the name. */
    constructor AsWrittenOfFilename(filename: Option<string>)
      ensures dtype == Inline && name == filename && this.filename == filename
    {
      dtype := Inline;
      name := filename;
      this.filename := filename;
    }

    /** A name and a file name, as written: the name passed is lost. */
    constructor AsWrittenOfNameAndFilename(name: Option<string>, filename: Option<string>)
      ensures dtype == Inline && this.name == filename && this.filename == filename
    {
      dtype := Inline;
      this.name := filename;
      this.filename := filename;
    }

    /** A type and a file name, as written: the file name is also stored as the name. */
    constructor AsWrittenOfTypeAndFilename(t: DispositionType, filename: Option<string>)
      ensures dtype == t && name == filename && this.filename == filename
    {
      dtype := t;
      name := filename;
      this.filename := filename;
    }

    /** setType: a null type fails the not-null assertion and leaves the type as it was. */
    method SetType(t: Option<DispositionType>) returns (err: Option<Error>)
      modifies this`dtype
      ensures t.None? ==> err == Some(IllegalArgument) && dtype == old(dtype)
      ensures t.Some? ==> err.None? && dtype == t.value
    {
      if t.None? {
        return Some(IllegalArgument);
      }
      dtype := t.value;
      return None;
    }

    method SetName(name: Option<string>)
      modifies this`name
      ensures this.name == name
    {
      this.name := name;
    }

    method SetFilename(filename: Option<string>)
      modifies this`filename
      ensures this.filename == filename
    {
      this.filename := filename;
    }

    /** toString: the mode, then the name parameter, then the file-name parameter, each only when not blank. */
    method ToString() returns (s: string)
      ensures s == Header(dtype, name, filename)
    {
      var builder := dtype.Mode();
      if !Ascii.IsBlank(name) {
        builder := builder + ";name=" + "\"" + name.value + "\"";
      }
      if !Ascii.IsBlank(filename) {
        builder := builder + ";filename=" + "\"" + filename.value + "\"";
      }
      s := builder;
    }
  }

  /** The header always begins with the mode of its type. */
  lemma HeaderStartsWithMode(t: DispositionType, name: Option<string>, filename: Option<string>)
    ensures |t.Mode()| <= |Header(t, name, filename)|
    ensures Header(t, name, filename)[..|t.Mode()|] == t.Mode()
  {
    var h := Header(t, name, filename);
    assert h == t.Mode() + (Param(NameLabel, name) + Param(FilenameLabel, filename));
  }

  /** With a blank name and a blank file name the header is the mode alone. */
  lemma HeaderOfBlanks(t: DispositionType, name: Option<string>, filename: Option<string>)
    requires Ascii.IsBlank(name) && Ascii.IsBlank(filename)
    ensures Header(t, name, filename) == t.Mode()
  {
  }

  /** After any prefix, a non-blank name puts the name label first. */
  lemma NameLabelFollows(mode: string, name: Option<string>, filename: Option<string>)
    requires !Ascii.IsBlank(name)
    ensures var h := mode + Param(NameLabel, name) + Param(FilenameLabel, filename);
            |mode| + |NameLabel| <= |h| && h[|mode|..|mode| + |NameLabel|] == NameLabel
  {
    var h := mode + Param(NameLabel, name) + Param(FilenameLabel, filename);
    assert h == mode + NameLabel + (name.value + "\"" + Param(FilenameLabel, filename));
  }

  /** After any prefix, a blank name leaves at most the file name label, which differs from the name label. */
  lemma NoNameLabel(mode: string, name: Option<string>, filename: Option<string>)
    requires Ascii.IsBlank(name)
    ensures var h := mode + Param(NameLabel, name) + Param(FilenameLabel, filename);
            !(|mode| + |NameLabel| <= |h| && h[|mode|..|mode| + |NameLabel|] == NameLabel)
  {
    var h := mode + Param(NameLabel, name) + Param(FilenameLabel, filename);
    var m := |mode|;
    assert h == mode + Param(FilenameLabel, filename);
    if m + |NameLabel| <= |h| {
      assert !Ascii.IsBlank(filename);
      assert h == mode + FilenameLabel + (filename.value + "\"");
      assert h[m + 1] == FilenameLabel[1];
      assert h[m..m + |NameLabel|][1] != NameLabel[1];
    }
  }

  /** The name parameter is written exactly when the name is not blank, and directly after the mode. */
  lemma HeaderNameParameter(t: DispositionType, name: Option<string>, filename: Option<string>)
    ensures var h := Header(t, name, filename);
            var m := |t.Mode()|;
            !Ascii.IsBlank(name) <==> (m + |NameLabel| <= |h| && h[m..m + |NameLabel|] == NameLabel)
  {
    if Ascii.IsBlank(name) {
      NoNameLabel(t.Mode(), name, filename);
    } else {
      NameLabelFollows(t.Mode(), name, filename);
    }
  }

  // ---------------------------------------------------------------------
  // Reading a header back.

  /** The fields a header carries: its type and the values written for name and file name. */
  datatype Parsed = Parsed(dtype: DispositionType, name: Option<string>, filename: Option<string>)

  /** A value that holds no double quote, so that its closing quote can be found. */
  predicate NoQuote(v: Option<string>) {
    v.None? || '"' !in v.value
  }

  /** The first position of `c` in `s`, or `|s|` when there is none. */
  function IndexOf(s: string, c: char): (i: nat)
    ensures i <= |s|
    ensures i < |s| ==> s[i] == c
    ensures forall j :: 0 <= j < i ==> s[j] != c
  {
    if s == [] then 0 else if s[0] == c then 0 else 1 + IndexOf(s[1..], c)
  }

  lemma {:induction false} IndexOfAfter(a: string, b: string, c: char)
    requires c !in a
    requires b == [] || b[0] == c
    ensures IndexOf(a + b, c) == |a|
  {
    if a != [] {
      assert (a + b)[1..] == a[1..] + b;
      IndexOfAfter(a[1..], b, c);
    }
  }

  /** Reads `tag value"` off the front of `s`: the value and what follows, or nothing and `s` itself. */
  function TakeParam(tag: string, s: string): (Option<string>, string) {
    if |tag| <= |s| && s[..|tag|] == tag then
      var body := s[|tag|..];
      var j := IndexOf(body, '"');
      if j < |body| then (Some(body[..j]), body[j + 1..]) else (None, s)
    else (None, s)
  }

  /** The type named before the first ';', then an optional name and an optional file name, and nothing else. */
  function ParseHeader(s: string): Option<Parsed> {
    var i := IndexOf(s, ';');
    var t := Resolve(Some(s[..i]));
    var (n, rest) := TakeParam(NameLabel, s[i..]);
    var (f, tail) := TakeParam(FilenameLabel, rest);
    if t.Some? && tail == [] then Some(Parsed(t.value, n, f)) else None
  }

  lemma TakeParamPresent(tag: string, v: string, rest: string)
    requires '"' !in v
    ensures TakeParam(tag, tag + v + "\"" + rest) == (Some(v), rest)
  {
    var s := tag + v + "\"" + rest;
    assert s[..|tag|] == tag;
    var body := s[|tag|..];
    assert body == v + ("\"" + rest);
    IndexOfAfter(v, "\"" + rest, '"');
    assert body[..|v|] == v;
    assert body[|v| + 1..] == rest;
  }

  lemma TakeParamAbsent(tag: string, v: Option<string>)
    requires Ascii.IsBlank(v)
    ensures TakeParam(tag, Param(tag, v)) == (None, [])
  {
  }

  /** A file-name parameter, or nothing, is not mistaken for a name parameter. */
  lemma TakeNameBeforeFilename(f: Option<string>)
    ensures TakeParam(NameLabel, Param(FilenameLabel, f)) == (None, Param(FilenameLabel, f))
  {
    var s := Param(FilenameLabel, f);
    if |NameLabel| <= |s| {
      assert s[1] == 'f';
      assert s[..|NameLabel|][1] == 'f';
    }
  }

  lemma TakeFilename(f: Option<string>)
    requires NoQuote(f)
    ensures TakeParam(FilenameLabel, Param(FilenameLabel, f)) == (Present(f), [])
  {
    if !Ascii.IsBlank(f) {
      assert Param(FilenameLabel, f) == FilenameLabel + f.value + "\"" + [];
      TakeParamPresent(FilenameLabel, f.value, []);
    }
  }

  /** The parameters of a header: the name part, then the file-name part. */
  function Params(name: Option<string>, filename: Option<string>): string {
    Param(NameLabel, name) + Param(FilenameLabel, filename)
  }

  /** The first ';' of a header is where its mode ends. */
  lemma HeaderSplitsAfterMode(t: DispositionType, name: Option<string>, filename: Option<string>)
    ensures var h := Header(t, name, filename);
            && IndexOf(h, ';') == |t.Mode()|
            && h[..|t.Mode()|] == t.Mode()
            && h[|t.Mode()|..] == Params(name, filename)
  {
    var h := Header(t, name, filename);
    var params := Params(name, filename);
    assert h == t.Mode() + params;
    assert params == [] || params[0] == ';';
    IndexOfAfter(t.Mode(), params, ';');
  }

  /** Both parameters are read back from the parameter text. */
  lemma TakeParams(name: Option<string>, filename: Option<string>)
    requires NoQuote(name) && NoQuote(filename)
    ensures var (n, rest) := TakeParam(NameLabel, Params(name, filename));
            n == Present(name) && TakeParam(FilenameLabel, rest) == (Present(filename), [])
  {
    var fp := Param(FilenameLabel, filename);
    TakeFilename(filename);
    if Ascii.IsBlank(name) {
      assert Params(name, filename) == fp;
      TakeNameBeforeFilename(filename);
    } else {
      assert Params(name, filename) == NameLabel + name.value + "\"" + fp;
      TakeParamPresent(NameLabel, name.value, fp);
    }
  }

  /** Reading a header back gives its type and every non-blank value, when no value holds a double quote. */
  lemma ParseHeaderRoundTrip(t: DispositionType, name: Option<string>, filename: Option<string>)
    requires NoQuote(name) && NoQuote(filename)
    ensures ParseHeader(Header(t, name, filename)) == Some(Parsed(t, Present(name), Present(filename)))
  {
    HeaderSplitsAfterMode(t, name, filename);
    ResolveRoundTrip(t);
    TakeParams(name, filename);
  }

  /** A value of ordinary letters is neither blank nor quoted. */
  lemma PlainValue(v: string)
    requires v != [] && 'a' <= v[0] <= 'z'
    requires forall i :: 0 <= i < |v| ==> v[i] != '"'
    ensures !Ascii.IsBlank(Some(v)) && NoQuote(Some(v)) && Present(Some(v)) == Some(v)
  {
    assert !Ascii.IsWhitespace(v[0]);
  }

  /** The three-argument constructor as written loses the name: the header repeats the file name instead. */
  method AsWrittenDropsName() returns (s: string)
    ensures s == Header(Attachment, Some("a.txt"), Some("a.txt"))
    ensures ParseHeader(s) == Some(Parsed(Attachment, Some("a.txt"), Some("a.txt")))
  {
    var d := new ContentDisposition.AsWritten(Attachment, Some("upload"), Some("a.txt"));
    s := d.ToString();
    PlainValue("a.txt");
    ParseHeaderRoundTrip(Attachment, Some("a.txt"), Some("a.txt"));
  }

  /** The corrected constructor keeps the name: reading the header back gives the name that was passed. */
  method CorrectedKeepsName() returns (s: string)
    ensures s == Header(Attachment, Some("upload"), Some("a.txt"))
    ensures ParseHeader(s) == Some(Parsed(Attachment, Some("upload"), Some("a.txt")))
  {
    var d := new ContentDisposition(Attachment, Some("upload"), Some("a.txt"));
    s := d.ToString();
    PlainValue("upload");
    PlainValue("a.txt");
    ParseHeaderRoundTrip(Attachment, Some("upload"), Some("a.txt"));
  }

  /**
   * The shorter constructors as written: a file name always comes back as the
   * name too, and a name passed alongside it is lost.
   */
  method AsWrittenShortConstructors() returns (byFilename: string, byNameAndFilename: string, byTypeAndFilename: string)
    ensures byFilename == Header(Inline, Some("a.txt"), Some("a.txt"))
    ensures byNameAndFilename == Header(Inline, Some("a.txt"), Some("a.txt"))
    ensures byTypeAndFilename == Header(Attachment, Some("a.txt"), Some("a.txt"))
    ensures ParseHeader(byNameAndFilename) == Some(Parsed(Inline, Some("a.txt"), Some("a.txt")))
  {
    var d1 := new ContentDisposition.AsWrittenOfFilename(Some("a.txt"));
    byFilename := d1.ToString();
    var d2 := new ContentDisposition.AsWrittenOfNameAndFilename(Some("upload"), Some("a.txt"));
    byNameAndFilename := d2.ToString();
    var d3 := new ContentDisposition.AsWrittenOfTypeAndFilename(Attachment, Some("a.txt"));
    byTypeAndFilename := d3.ToString();
    PlainValue("a.txt");
    ParseHeaderRoundTrip(Inline, Some("a.txt"), Some("a.txt"));
  }
}
