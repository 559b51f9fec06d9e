/** The Open Graph strings `handleCard` builds from the artisan it found. */
module CardFields {
  import opened Options
  import opened Strings
  import opened Artisans
  import opened Tagline

  /** `ogTitle`, `ogDesc`, `ogImage` and `ogUrl`. */
  datatype Fields = Fields(ogTitle: string, ogDesc: string, ogImage: string, ogUrl: string)

  const TitleSeparator := " | "
  /** `" — "`, with U+2014 EM DASH. */
  const DescriptionSeparator := " \U{2014} "

  /** A property as a template literal writes it: `${undefined}` is `"undefined"`,
      `${null}` is `"null"`. */
  function Interpolate(f: Field): string {
    match f
    case Absent => "undefined"
    case Null => "null"
    case Text(s) => s
  }

  /** `f || ''`: a missing, null or empty property gives the empty string. */
  function OrEmpty(f: Field): string {
    match f
    case Text(s) => s
    case _ => ""
  }

  /** The fields for artisan `a` on the page at `href`; `None` when `a.tagline.split`
      throws because the tagline is not a string. */
  function Derive(a: Artisan, href: string): (r: Option<Fields>)
    ensures r.Some? <==> a.tagline.Text?
    ensures r.Some? ==> r.value.ogUrl == href
  {
    match a.tagline
    case Text(t) =>
      Some(Fields(
        Interpolate(a.name) + TitleSeparator + Interpolate(a.title),
        Normalize(t) + DescriptionSeparator + Interpolate(a.bio),
        OrEmpty(a.avatar),
        href))
    case _ => None
  }

  /** For a record whose properties are all strings, the fields are the name and title
      around `" | "`, the normalised tagline and bio around `" — "`, the avatar, and the
      full request URL. */
  lemma DeriveFromStrings(a: Artisan, href: string)
    requires a.name.Text? && a.title.Text? && a.tagline.Text? && a.bio.Text? && a.avatar.Text?
    ensures Derive(a, href) == Some(Fields(
      a.name.value + " | " + a.title.value,
      Normalize(a.tagline.value) + " \U{2014} " + a.bio.value,
      a.avatar.value,
      href))
  {
  }

  /** The tagline part of the description, everything before `" — "`, holds no ASCII
      comma, whatever the record's tagline was. */
  lemma DescriptionTaglineHasNoAsciiComma(a: Artisan, href: string)
    requires a.tagline.Text?
    ensures Derive(a, href).Some?
    ensures var desc := Derive(a, href).value.ogDesc;
      exists n :: 0 <= n <= |desc| && desc[n..] == DescriptionSeparator + Interpolate(a.bio)
        && ',' !in desc[..n]
  {
    var t := Normalize(a.tagline.value);
    var desc := Derive(a, href).value.ogDesc;
    NormalizeHasNoAsciiComma(a.tagline.value);
    assert desc == t + (DescriptionSeparator + Interpolate(a.bio));
    assert desc[|t|..] == DescriptionSeparator + Interpolate(a.bio);
    assert desc[..|t|] == t;
  }

  /** A record without an avatar gets an empty image; one without a name or title does
      not get an empty title but the text `undefined`. */
  lemma MissingProperties(a: Artisan, href: string)
    requires a.tagline.Text? && a.avatar.Absent? && a.name.Absent?
    ensures Derive(a, href).value.ogImage == ""
    ensures Derive(a, href).value.ogTitle[..9] == "undefined"
  {
  }

  /** A tagline of two phrases written `x, y`: the description is `x，y — bio`, the
      title `name | title`. */
  lemma TwoPhraseTagline(id: Field, name: string, title: string, x: string, y: string,
                         bio: string, avatar: string, href: string)
    requires x != [] && Trimmed(x) && NoSeparator(x)
    requires y != [] && Trimmed(y) && NoSeparator(y)
    ensures Derive(Artisan(id, Text(name), Text(title), Text(x + ", " + y), Text(bio), Text(avatar)), href)
      == Some(Fields(name + " | " + title, x + "\U{FF0C}" + y + " \U{2014} " + bio, avatar, href))
  {
    NormalizePair(x, y);
  }
}
