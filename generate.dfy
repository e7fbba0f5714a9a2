/**
 * The caption generator (`generate_instagram_post`): the target language,
 * the previously-used-angles part of the prompt, and the normalisation of
 * the language model's decoded JSON reply into the result object.
 */
module Generate {
  import opened Opt
  import opened PyText
  import opened JsonValues
  import opened Extract

  const English: string := "en"
  const Swedish: string := "sv"

  /** Labels and markup the model tends to leave in the caption, removed in this order. */
  const Garbage: seq<string> := ["Caption Text:", "CAPTION:", "**"]

  /** The URL carries one of the English locale markers. */
  predicate HasEnglishMarker(url: string) {
    Contains(url, "en-gb") || Contains(url, "/en/") || Contains(url, "-en-")
  }

  /** Swedish unless the URL carries an English locale marker. */
  function TargetLanguage(url: string): (lang: string)
    ensures lang == English <==> HasEnglishMarker(url)
    ensures lang == Swedish <==> !HasEnglishMarker(url)
  {
    if HasEnglishMarker(url) then English else Swedish
  }

  /** A `/en/` path segment anywhere in the URL makes the caption English. */
  lemma EnglishPathSegment(before: string, after: string)
    ensures TargetLanguage(before + "/en/" + after) == English
  {
    var url := before + "/en/" + after;
    assert url[|before|..|before| + 4] == "/en/";
    assert OccursAt(url, "/en/", |before|);
  }

  /**
   * The angles the prompt lists as already used: present exactly when the
   * history holds the URL with a non-empty list, and then that whole list.
   */
  function PreviousAngles(history: map<string, seq<Json>>, url: string): (angles: Option<seq<Json>>)
    ensures angles.Some? <==> url in history && history[url] != []
    ensures angles.Some? ==> angles.value == history[url]
  {
    if history != map[] && url in history && history[url] != [] then Some(history[url]) else None
  }

  /**
   * Where the caption comes from: a top-level `post_text` wins; otherwise
   * `caption_text` inside `instagram_post`, or at the top level when there is
   * no `instagram_post` key at all.
   */
  function ResolveCaption(data: map<string, Json>): (c: Option<Json>)
    ensures "post_text" in data ==> c == Some(data["post_text"])
    ensures "post_text" !in data && "instagram_post" in data ==>
      var nested := data["instagram_post"];
      c == if nested.Obj? && "caption_text" in nested.fields then Some(nested.fields["caption_text"]) else None
    ensures "post_text" !in data && "instagram_post" !in data ==>
      c == if "caption_text" in data then Some(data["caption_text"]) else None
  {
    if "post_text" in data then Some(data["post_text"])
    else
      var source := if "instagram_post" in data then data["instagram_post"] else Obj(data);
      if source.Obj? && "caption_text" in source.fields then Some(source.fields["caption_text"]) else None
  }

  /** A caption is found whenever `post_text` exists, or `caption_text` exists where it is looked for. */
  lemma CaptionFoundWhenPresent(data: map<string, Json>)
    requires "post_text" in data
      || ("instagram_post" in data && data["instagram_post"].Obj? && "caption_text" in data["instagram_post"].fields)
      || ("instagram_post" !in data && "caption_text" in data)
    ensures ResolveCaption(data).Some?
  {
  }

  /** `s` after the first `n` garbage markers have each been replaced by nothing. */
  function Scrubbed(s: string, n: nat): (r: string)
    requires n <= |Garbage|
    ensures |r| <= |s|
  {
    if n == 0 then s else ReplaceAll(Scrubbed(s, n - 1), Garbage[n - 1], "")
  }

  /** `if url in s: s = s.replace(url, "")`; an empty URL leaves `s` as it is. */
  function RemoveUrl(s: string, url: string): (r: string)
    ensures |r| <= |s|
    ensures !Contains(s, url) ==> r == s
  {
    if url != [] && Contains(s, url) then ReplaceAll(s, url, "") else s
  }

  /** The cleaned caption: markers removed, the article URL removed, then stripped. */
  function CleanCaption(text: string, url: string): (r: string)
    ensures r == [] || (!IsSpace(r[0]) && !IsSpace(r[|r| - 1]))
    ensures |r| <= |text|
  {
    var s := RemoveUrl(Scrubbed(text, |Garbage|), url);
    var r := Strip(s);
    assert |r| <= |s|;
    r
  }

  /** The cleaning loop over the garbage markers, then the URL removal and the strip. */
  method CleanText(text: string, url: string) returns (clean: string)
    ensures clean == CleanCaption(text, url)
  {
    clean := text;
    for i := 0 to |Garbage|
      invariant clean == Scrubbed(text, i)
    {
      clean := ReplaceAll(clean, Garbage[i], "");
    }
    if Contains(clean, url) {
      if url != [] {
        clean := ReplaceAll(clean, url, "");
      }
    }
    clean := Strip(clean);
  }

  /** A caption with no marker, no URL and no surrounding whitespace comes out as it went in. */
  lemma {:induction false} CleanCaptionKeepsClean(text: string, url: string)
    requires forall n :: 0 <= n < |Garbage| ==> !Contains(text, Garbage[n])
    requires !Contains(text, url)
    requires text == [] || (!IsSpace(text[0]) && !IsSpace(text[|text| - 1]))
    ensures CleanCaption(text, url) == text
  {
    forall n | 0 <= n <= |Garbage| ensures Scrubbed(text, n) == text {
      ScrubbedKeeps(text, n);
    }
    assert TrimLeft(text) == text;
    assert TrimRight(text) == text;
  }

  lemma {:induction false} ScrubbedKeeps(text: string, n: nat)
    requires n <= |Garbage|
    requires forall k :: 0 <= k < |Garbage| ==> !Contains(text, Garbage[k])
    ensures Scrubbed(text, n) == text
  {
    if n > 0 {
      ScrubbedKeeps(text, n - 1);
      ReplaceAbsent(text, Garbage[n - 1], "");
    }
  }

  /**
   * The URL is cut out literally and nothing around it is touched: with the
   * URL's first character absent from the text on either side, removing it
   * leaves exactly the two sides, their whitespace included.
   */
  lemma RemoveUrlBetween(before: string, url: string, after: string)
    requires url != [] && url[0] !in before && url[0] !in after
    ensures RemoveUrl(before + url + after, url) == before + after
  {
    var text := before + url + after;
    assert Contains(text, url) by {
      assert text[|before|..|before| + |url|] == url;
      assert OccursAt(text, url, |before|);
    }
    assert text == before + (url + after);
    ReplaceSkipsPrefix(before, url + after, url, "");
    ReplaceLeading(url, after, "");
    AbsentFirstChar(after, url);
    ReplaceAbsent(after, url, "");
  }

  /** A text without any character that starts a garbage marker is not changed by the scrubbing. */
  lemma ScrubbedWithoutMarkers(text: string)
    requires 'C' !in text && '*' !in text
    ensures Scrubbed(text, |Garbage|) == text
  {
    forall k | 0 <= k < |Garbage| ensures !Contains(text, Garbage[k]) {
      AbsentFirstChar(text, Garbage[k]);
    }
    ScrubbedKeeps(text, |Garbage|);
  }

  /**
   * The URL is removed in one left-to-right pass, so a caption in which the
   * URL surrounds a copy of itself still holds the URL afterwards:
   * "aabb" with the URL "ab" becomes "ab".
   */
  lemma RemoveUrlSinglePass()
    ensures Contains("aabb", "ab") && RemoveUrl("aabb", "ab") == "ab" && Contains(RemoveUrl("aabb", "ab"), "ab")
  {
    var s := "aabb";
    assert OccursAt(s, "ab", 1);
    assert s[..2][1] == 'a';
    assert s[1..] == "abb";
    assert "abb"[..2] == "ab" && "abb"[2..] == "b";
    assert ReplaceAll("b", "ab", "") == "b";
    assert ReplaceAll("abb", "ab", "") == "b";
    assert ReplaceAll(s, "ab", "") == "ab";
    assert OccursAt("ab", "ab", 0);
  }

  /**
   * Cleaning a caption made of some text, the article URL and more text
   * gives back the two texts side by side: no whitespace is collapsed where
   * the URL was.
   */
  lemma CleanCaptionAroundUrl(before: string, url: string, after: string)
    requires url != [] && url[0] !in before && url[0] !in after
    requires forall c :: c in "C*" ==> c !in before && c !in url && c !in after
    requires before != [] && !IsSpace(before[0])
    requires after != [] && !IsSpace(after[|after| - 1])
    ensures CleanCaption(before + url + after, url) == before + after
  {
    var text := before + url + after;
    ScrubbedWithoutMarkers(text);
    RemoveUrlBetween(before, url, after);
    var cleaned := before + after;
    assert cleaned[0] == before[0];
    assert cleaned[|cleaned| - 1] == after[|after| - 1];
    assert TrimLeft(cleaned) == cleaned;
    assert TrimRight(cleaned) == cleaned;
  }

  /**
   * A caption "Hello https://site.com/a world" for the article
   * "https://site.com/a" becomes "Hello " + " world", two spaces included.
   */
  lemma CleanCaptionExample()
    ensures CleanCaption("Hello " + "https://site.com/a" + " world", "https://site.com/a") == "Hello " + " world"
  {
    CleanCaptionAroundUrl("Hello ", "https://site.com/a", " world");
  }

  /**
   * The normalised reply object. `None` when the caption found is not a
   * string (Python's `.replace` raises and the handler returns `None`).
   * When a caption is found, `post_text` becomes its cleaned text and
   * `language` the target language; otherwise the object is left as it is.
   */
  function Normalised(data: map<string, Json>, url: string, lang: string): (r: Option<map<string, Json>>)
    ensures r.None? <==> ResolveCaption(data).Some? && !ResolveCaption(data).value.Str?
    ensures r.Some? && ResolveCaption(data).None? ==> r.value == data
    ensures r.Some? && ResolveCaption(data).Some? ==>
      && r.value.Keys == data.Keys + {"post_text", "language"}
      && r.value["post_text"] == Str(CleanCaption(ResolveCaption(data).value.s, url))
      && r.value["language"] == Str(lang)
    ensures r.Some? ==> forall k :: k in data && k != "post_text" && k != "language" ==> k in r.value && r.value[k] == data[k]
  {
    match ResolveCaption(data)
    case None => Some(data)
    case Some(caption) =>
      if caption.Str? then
        Some(data["post_text" := Str(CleanCaption(caption.s, url))]["language" := Str(lang)])
      else None
  }

  /** The normalised caption never starts or ends with whitespace. */
  lemma NormalisedCaptionTrimmed(data: map<string, Json>, url: string, lang: string)
    requires Normalised(data, url, lang).Some? && ResolveCaption(data).Some?
    ensures var t := Normalised(data, url, lang).value["post_text"];
      t.Str? && (t.s == [] || (!IsSpace(t.s[0]) && !IsSpace(t.s[|t.s| - 1])))
  {
  }

  /** A reply holding only `instagram_post` with a string `caption_text` gets that caption, cleaned. */
  lemma NormalisedNestedCaption(post: map<string, Json>, url: string, lang: string)
    requires "caption_text" in post && post["caption_text"].Str?
    ensures var r := Normalised(map["instagram_post" := Obj(post)], url, lang);
      r.Some? && r.value["post_text"] == Str(CleanCaption(post["caption_text"].s, url))
  {
  }

  /** A reply in the prompt's nested schema, with the URL inside its caption, comes out with `post_text` "Hello " + " world": two spaces. */
  lemma NormalisedExample()
    ensures var url := "https://site.com/a";
      var post := Obj(map["caption_text" := Str("Hello " + url + " world"), "angle_description" := Str("health angle")]);
      var r := Normalised(map["instagram_post" := post], url, TargetLanguage(url));
      r.Some? && r.value["post_text"] == Str("Hello " + " world")
  {
    var url := "https://site.com/a";
    var post := map["caption_text" := Str("Hello " + url + " world"), "angle_description" := Str("health angle")];
    NormalisedNestedCaption(post, url, TargetLanguage(url));
    CleanCaptionExample();
  }

  /** The in-place normalisation of the decoded reply object. */
  method NormaliseReply(reply: map<string, Json>, url: string, lang: string) returns (r: Option<map<string, Json>>)
    ensures r == Normalised(reply, url, lang)
  {
    ghost var found := ResolveCaption(reply);
    var data := reply;
    if "post_text" !in data {
      var source := if "instagram_post" in data then data["instagram_post"] else Obj(data);
      if source.Obj? && "caption_text" in source.fields {
        data := data["post_text" := source.fields["caption_text"]];
      }
    }

    if "post_text" in data {
      var caption := data["post_text"];
      assert found == Some(caption);
      assert data == reply["post_text" := caption];
      if !caption.Str? {
        // `.replace` on a non-string raises; the handler returns None.
        return None;
      }
      var clean := CleanText(caption.s, url);
      assert reply["post_text" := caption]["post_text" := Str(clean)] == reply["post_text" := Str(clean)];
      data := data["post_text" := Str(clean)];
      data := data["language" := Str(lang)];
      assert data == reply["post_text" := Str(CleanCaption(found.value.s, url))]["language" := Str(lang)];
    } else {
      assert found.None? && data == reply;
    }
    r := Some(data);
  }

  /**
   * `generate_instagram_post` once the model has answered: `reply` is the
   * decoded JSON, `None` when the call or the decoding raised. Returns the
   * angles the prompt lists as used, and the normalised result.
   */
  method GenerateInstagramPost(article: ArticleRecord, history: map<string, seq<Json>>, reply: Option<Json>)
    returns (previousAngles: Option<seq<Json>>, r: Option<map<string, Json>>)
    ensures previousAngles == PreviousAngles(history, article.url)
    ensures reply.None? || !reply.value.Obj? ==> r.None?
    ensures reply.Some? && reply.value.Obj? ==> r == Normalised(reply.value.fields, article.url, TargetLanguage(article.url))
  {
    var targetLang := Swedish;
    if Contains(article.url, "en-gb") || Contains(article.url, "/en/") || Contains(article.url, "-en-") {
      targetLang := English;
    }

    previousAngles := None;
    if history != map[] && article.url in history {
      var angles := history[article.url];
      if angles != [] {
        previousAngles := Some(angles);
      }
    }

    if reply.None? || !reply.value.Obj? {
      // No reply, or a reply that is not an object: the lookups raise and the handler returns None.
      r := None;
    } else {
      r := NormaliseReply(reply.value.fields, article.url, targetLang);
    }
  }
}
