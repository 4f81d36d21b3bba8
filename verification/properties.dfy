/**
  Properties of the `/api/convert` handler, each over all request bodies: which
  body yields which error, in which order the checks apply, what a success echoes,
  and that a successful response can be fed back unchanged.
 */
module Properties {
  import opened Json
  import opened PyStr
  import opened Mock
  import opened App
  import opened Wrappers

  /** The body `{"text": text, "target": target}`. */
  function Request(text: string, target: Value): Value
  {
    Object(map["text" := Str(text), "target" := target])
  }

  /** A body that passes the no-data check and carries no text worth converting. */
  predicate BlankText(data: Value)
  {
    Truthy(data) && data.Object? && TextOf(data.fields).Str? && AllSpace(TextOf(data.fields).s)
  }

  /** Reference description of the accepted bodies, without `Strip`: a non-empty dict
      whose `text` is a string with some non-whitespace character, the span from the
      first to the last non-whitespace character has at most 500 code points, and the
      target is usable as a dict key. */
  ghost predicate Acceptable(data: Value)
  {
    && data.Object?
    && "text" in data.fields
    && data.fields["text"].Str?
    && ContentSpanWithin(data.fields["text"].s, MaxTextLength)
    && Hashable(TargetOf(data.fields))
  }

  ghost predicate ContentSpanWithin(s: string, bound: nat)
  {
    exists i, j :: 0 <= i < j <= |s| && ContentSpan(s, i, j) && j - i <= bound
  }

  /** `s[i..j]` starts and ends with non-whitespace and only whitespace lies outside it. */
  ghost predicate ContentSpan(s: string, i: int, j: int)
    requires 0 <= i < j <= |s|
  {
    !IsSpace(s[i]) && !IsSpace(s[j - 1]) && SpaceBetween(s, 0, i) && SpaceBetween(s, j, |s|)
  }

  /** The no-data error is returned exactly for a falsy body (`null`, `false`, `0`,
      `""`, `[]`, `{}`); no other check runs first. */
  lemma NoDataIff(data: Value)
    ensures ConvertText(data) == Err(NoData) <==> !Truthy(data)
  {
  }

  /** The text-required error is returned exactly when the body passes the no-data
      check and its `text` is absent, empty or whitespace only. */
  lemma TextRequiredIff(data: Value)
    ensures ConvertText(data) == Err(TextRequired) <==> BlankText(data)
  {
    if data.Object? && TextOf(data.fields).Str? {
      StripEmptyIffAllSpace(TextOf(data.fields).s);
    }
  }

  /** A blank text is rejected whatever `target` says, even a list or dict target,
      because the text checks run before the prefix lookup. */
  lemma BlankTextIgnoresTarget(fields: map<string, Value>, target: Value)
    requires "text" !in fields || (fields["text"].Str? && AllSpace(fields["text"].s))
    ensures ConvertText(Object(fields["target" := target])) == Err(TextRequired)
  {
    var data := Object(fields["target" := target]);
    assert "target" in data.fields;
    assert TextOf(data.fields) == TextOf(fields);
    TextRequiredIff(data);
  }

  /** The length error is returned exactly when the body is a non-empty dict whose
      `text` is a string with more than 500 code points left after stripping. */
  lemma TooLongIff(data: Value)
    ensures ConvertText(data) == Err(TextTooLong) <==>
      (Truthy(data) && data.Object? && TextOf(data.fields).Str? && |Strip(TextOf(data.fields).s)| > MaxTextLength)
  {
  }

  /** Both boundary values: 500 stripped code points are accepted, 501 are not. */
  lemma LengthBoundary(text: string, target: Value)
    requires Hashable(target)
    ensures |Strip(text)| == 500 ==> ConvertText(Request(text, target)).Ok?
    ensures |Strip(text)| == 501 ==> ConvertText(Request(text, target)) == Err(TextTooLong)
  {
    if |Strip(text)| == 500 {
      RequestOutcome(text, target);
    } else if |Strip(text)| == 501 {
      RequestOutcome(text, target);
    }
  }

  /** How the handler answers a body with a string `text` and a `target`. */
  lemma RequestOutcome(text: string, target: Value)
    ensures ConvertText(Request(text, target)) ==
      if Strip(text) == [] then Err(TextRequired)
      else if |Strip(text)| > MaxTextLength then Err(TextTooLong)
      else if !Hashable(target) then Err(Raised(Unhashable(TypeName(target))))
      else Ok(Strip(text), Render(AudienceOf(target), Strip(text)), target, MockStatus)
  {
    var data := Request(text, target);
    assert "text" in data.fields && "target" in data.fields;
  }

  /** Whitespace around the text never counts: padding it changes no response. */
  lemma PaddingIgnored(fields: map<string, Value>, p: string, t: string, q: string)
    requires AllSpace(p) && AllSpace(q)
    ensures ConvertText(Object(fields["text" := Str(p + t + q)])) == ConvertText(Object(fields["text" := Str(t)]))
  {
    StripIgnoresPadding(p, t, q);
    FieldsOutcome(fields, p + t + q);
    FieldsOutcome(fields, t);
  }

  /** How the handler answers a dict body whose `text` is the string `text`. */
  lemma FieldsOutcome(fields: map<string, Value>, text: string)
    ensures var target := TargetOf(fields["text" := Str(text)]);
      && target == TargetOf(fields)
      && ConvertText(Object(fields["text" := Str(text)])) ==
        if Strip(text) == [] then Err(TextRequired)
        else if |Strip(text)| > MaxTextLength then Err(TextTooLong)
        else if !Hashable(target) then Err(Raised(Unhashable(TypeName(target))))
        else Ok(Strip(text), Render(AudienceOf(target), Strip(text)), target, MockStatus)
  {
    var data := Object(fields["text" := Str(text)]);
    assert "text" in data.fields;
  }

  /** On success the response echoes the stripped text and the effective target,
      and the converted string is the target's label, a space, the text and the note. */
  lemma SuccessEchoes(data: Value)
    requires ConvertText(data).Ok?
    ensures data.Object? && "text" in data.fields && data.fields["text"].Str?
    ensures ConvertText(data).original == Strip(data.fields["text"].s)
    ensures ConvertText(data).target == TargetOf(data.fields)
    ensures ConvertText(data).converted
         == Label(AudienceOf(ConvertText(data).target)) + " " + ConvertText(data).original + Note
  {
  }

  /** A body without `target` is converted for the superior audience and reports
      "boss" as its target. */
  lemma MissingTargetIsBoss(data: Value)
    requires data.Object? && "target" !in data.fields && ConvertText(data).Ok?
    ensures ConvertText(data).target == Str("boss")
    ensures ConvertText(data).converted == "[상사용 변환]  " + ConvertText(data).original + Note
  {
    SuccessEchoes(data);
    TableHeads();
  }

  /** Each of the three table keys is accepted, echoed, and selects its own row
      of the table (whose heads `TableHeads` spells out), not the fallback. */
  lemma TableTarget(text: string, key: string)
    requires 1 <= |Strip(text)| <= MaxTextLength
    requires key == "boss" || key == "colleague" || key == "customer"
    ensures AudienceOf(Str(key)) != Other
    ensures Label(AudienceOf(Str(key))) ==
      if key == "boss" then "[상사용 변환] "
      else if key == "colleague" then "[동료용 변환] "
      else "[고객용 변환] "
    ensures ConvertText(Request(text, Str(key)))
         == Ok(Strip(text), Head(AudienceOf(Str(key))) + Strip(text) + Note, Str(key), MockStatus)
  {
    RequestOutcome(text, Str(key));
  }

  /** The converted string of a success reads back as its audience and original text. */
  lemma ConvertedParses(data: Value)
    requires ConvertText(data).Ok?
    ensures Parse(ConvertText(data).converted) == Some((AudienceOf(ConvertText(data).target), ConvertText(data).original))
  {
    SuccessEchoes(data);
    var r := ConvertText(data);
    ParseRender(AudienceOf(r.target), r.original);
  }

  /** A target outside the table is no error: it is echoed unchanged and the
      fallback label is used. */
  lemma UnknownTargetAccepted(text: string, target: Value)
    requires 1 <= |Strip(text)| <= MaxTextLength
    requires Hashable(target)
    requires target != Str("boss") && target != Str("colleague") && target != Str("customer")
    ensures ConvertText(Request(text, target))
         == Ok(Strip(text), "[변환]  " + Strip(text) + Note, target, MockStatus)
  {
    RequestOutcome(text, target);
    assert AudienceOf(target) == Other;
    FallbackHead();
  }

  /** Success happens exactly for the bodies the reference description accepts. */
  lemma AcceptedIff(data: Value)
    ensures ConvertText(data).Ok? <==> Acceptable(data)
  {
    if ConvertText(data).Ok? {
      AcceptedIsAcceptable(data);
    }
    if Acceptable(data) {
      AcceptableIsAccepted(data);
    }
  }

  lemma AcceptedIsAcceptable(data: Value)
    requires ConvertText(data).Ok?
    ensures Acceptable(data)
  {
    SuccessEchoes(data);
    var s := data.fields["text"].s;
    var r := Strip(s);
    var a, b :| 0 <= a <= b <= |s| && StrippedAt(s, r, a, b);
    StrippedIndexes(s, r, a, b);
    assert ContentSpan(s, a, b);
  }

  lemma AcceptableIsAccepted(data: Value)
    requires Acceptable(data)
    ensures ConvertText(data).Ok?
  {
    var s := data.fields["text"].s;
    var i, j :| 0 <= i < j <= |s| && ContentSpan(s, i, j) && j - i <= MaxTextLength;
    SpanIsStrip(s, i, j);
    assert data.fields == data.fields["text" := Str(s)];
    FieldsOutcome(data.fields, s);
  }

  /** A content span is exactly what `strip()` keeps. */
  lemma SpanIsStrip(s: string, i: int, j: int)
    requires 0 <= i < j <= |s| && ContentSpan(s, i, j)
    ensures Strip(s) == s[i..j]
  {
    assert StrippedAt(s, s[i..j], i, j);
    StripUnique(s, s[i..j], Strip(s));
  }

  /** The 500 responses, from Python exceptions caught by the handler: a truthy
      non-dict body has no `get`, a non-string `text` has no `strip`, and a list or
      dict target cannot be looked up in the prefix table (reached only once the
      text checks pass). Nothing else yields a 500. */
  lemma InternalErrorIff(data: Value)
    ensures Truthy(data) && !data.Object? ==>
      ConvertText(data) == Err(Raised(NoAttribute(TypeName(data), "get")))
    ensures Truthy(data) && data.Object? && !TextOf(data.fields).Str? ==>
      ConvertText(data) == Err(Raised(NoAttribute(TypeName(TextOf(data.fields)), "strip")))
    ensures (data.Object? && TextOf(data.fields).Str?
             && 1 <= |Strip(TextOf(data.fields).s)| <= MaxTextLength && !Hashable(TargetOf(data.fields))) ==>
      ConvertText(data) == Err(Raised(Unhashable(TypeName(TargetOf(data.fields)))))
    ensures ConvertText(data).Code() == 500 ==>
      || (Truthy(data) && !data.Object?)
      || (Truthy(data) && data.Object? && !TextOf(data.fields).Str?)
      || (data.Object? && TextOf(data.fields).Str? && !Hashable(TargetOf(data.fields)))
  {
    if data.Object? && TextOf(data.fields).Str? && Strip(TextOf(data.fields).s) != [] {
      StripEmptyIffAllSpace(TextOf(data.fields).s);
      assert Truthy(data) by {
        assert "text" in data.fields;
      }
    }
  }

  /** Submitting a successful response's `original` and `target` again yields the
      same response: the mock path is idempotent. */
  lemma ResubmitIdempotent(data: Value)
    requires ConvertText(data).Ok?
    ensures ConvertText(Request(ConvertText(data).original, ConvertText(data).target)) == ConvertText(data)
  {
    var r := ConvertText(data);
    SuccessEchoes(data);
    StripIdempotent(data.fields["text"].s);
    RequestOutcome(r.original, r.target);
  }

  /** The concrete mock-mode exchange for `{"text": "hello", "target": "boss"}`. */
  lemma HelloForBoss()
    ensures ConvertText(Request("hello", Str("boss")))
         == Ok("hello", "[상사용 변환]  hello (실제 AI 변환은 추후 구현됩니다.)", Str("boss"), "success_mock")
  {
    StripTight("hello");
    RequestOutcome("hello", Str("boss"));
    BossHelloRendering();
  }
}
