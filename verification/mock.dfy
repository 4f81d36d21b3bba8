/**
  The placeholder conversion of the handler's mock path: a fixed audience label,
  one separating space, the text, and a note that real conversion is pending.
  `Parse` reads a converted string back into its audience and text.
 */
module Mock {
  import opened Wrappers
  import opened Json

  /** The rows of the prefix table, plus the fallback used for every other target. */
  datatype Audience = Boss | Colleague | Customer | Other

  /** Which prefix-table row a `target` value selects. Only the three string keys
      match; any other hashable value (another string, a number, `null`, a
      boolean) takes the fallback row. */
  function AudienceOf(target: Value): (a: Audience)
    ensures a == Boss <==> target == Str("boss")
    ensures a == Colleague <==> target == Str("colleague")
    ensures a == Customer <==> target == Str("customer")
  {
    match target
    case Str(k) =>
      if k == "boss" then Boss
      else if k == "colleague" then Colleague
      else if k == "customer" then Customer
      else Other
    case _ => Other
  }

  /** The prefix-table entries: a bracketed tag followed by one space. */
  function Label(a: Audience): (r: string)
    ensures 3 <= |r| && r[0] == '[' && r[|r| - 2] == ']' && r[|r| - 1] == ' '
  {
    match a
    case Boss => "[상사용 변환] "
    case Colleague => "[동료용 변환] "
    case Customer => "[고객용 변환] "
    case Other => "[변환] "
  }

  /** Label followed by the literal space of the format string, so the text is
      preceded by two spaces. */
  function Head(a: Audience): (r: string)
    ensures |r| == |Label(a)| + 1 && r[..|Label(a)|] == Label(a)
    ensures r[|r| - 3..] == "]  "
  {
    Label(a) + " "
  }

  const Note: string := " (실제 AI 변환은 추후 구현됩니다.)"

  /** The converted string for audience `a` and stripped text `text`. */
  function Render(a: Audience, text: string): (r: string)
    ensures |r| == |Head(a)| + |text| + |Note|
    ensures Framed(r, a) && Inner(r, a) == text
  {
    Head(a) + text + Note
  }

  /** `c` starts with the head for `a` and ends with the note, without overlap. */
  predicate Framed(c: string, a: Audience)
  {
    |Head(a)| + |Note| <= |c| && c[..|Head(a)|] == Head(a) && c[|c| - |Note|..] == Note
  }

  /** Recover the audience and text from a converted string, if it has the mock shape. */
  function Parse(c: string): (r: Option<(Audience, string)>)
    ensures r.Some? ==> Framed(c, r.value.0)
  {
    if Framed(c, Boss) then Some((Boss, Inner(c, Boss)))
    else if Framed(c, Colleague) then Some((Colleague, Inner(c, Colleague)))
    else if Framed(c, Customer) then Some((Customer, Inner(c, Customer)))
    else if Framed(c, Other) then Some((Other, Inner(c, Other)))
    else None
  }

  function Inner(c: string, a: Audience): string
    requires Framed(c, a)
  {
    c[|Head(a)|..|c| - |Note|]
  }

  /** No head is an initial segment of a string that starts with another head:
      the labels already differ in their second character. */
  lemma HeadsDistinguish(a: Audience, b: Audience, c: string)
    requires |Head(a)| <= |c| && c[..|Head(a)|] == Head(a)
    requires |Head(b)| <= |c| && c[..|Head(b)|] == Head(b)
    ensures a == b
  {
    assert c[1] == Head(a)[1] == Head(b)[1];
  }

  /** Reading a rendered string gives back exactly the audience and the text. */
  lemma ParseRender(a: Audience, text: string)
    ensures Parse(Render(a, text)) == Some((a, text))
  {
    var c := Render(a, text);
    assert c[..|Head(a)|] == Head(a);
    assert c[|c| - |Note|..] == Note;
    assert Framed(c, a);
    assert Inner(c, a) == text;
    var r := Parse(c);
    HeadsDistinguish(r.value.0, a, c);
  }

  /** Every string `Parse` accepts is the rendering of what it returns. */
  lemma RenderParse(c: string, a: Audience, text: string)
    requires Parse(c) == Some((a, text))
    ensures Render(a, text) == c
  {
    assert c == c[..|Head(a)|] + c[|Head(a)|..|c| - |Note|] + c[|c| - |Note|..];
  }

  /** Distinct texts or audiences never render to the same converted string. */
  lemma RenderInjective(a1: Audience, t1: string, a2: Audience, t2: string)
    requires Render(a1, t1) == Render(a2, t2)
    ensures a1 == a2 && t1 == t2
  {
    ParseRender(a1, t1);
    ParseRender(a2, t2);
  }

  /** The heads of the three table rows. */
  lemma TableHeads()
    ensures Head(Boss) == "[상사용 변환]  "
    ensures Head(Colleague) == "[동료용 변환]  "
    ensures Head(Customer) == "[고객용 변환]  "
  {
  }

  /** The fallback head: the label's trailing space and the separator give two spaces. */
  lemma FallbackHead()
    ensures Head(Other) == "[변환]  "
  {
  }

  /** The rendering of "hello" for the superior audience, character for character. */
  lemma BossHelloRendering()
    ensures Render(Boss, "hello") == "[상사용 변환]  hello (실제 AI 변환은 추후 구현됩니다.)"
  {
  }
}
