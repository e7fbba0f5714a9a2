/**
 * The end of the agent's run (`main`): the generated object is back-filled
 * with the article's URL, image and title where the model left them out,
 * and the angle the model reports is appended to the per-URL angle history
 * when it is new.
 */
module Run {
  import opened Opt
  import opened JsonValues
  import opened Extract
  import opened Generate

  const ArticleUrlKey: string := "article_url"
  const ImageUrlKey: string := "image_url"
  const TitleKey: string := "title"

  /** `k` keeps a truthy value; a missing or falsy one is replaced by `fallback`. */
  function FillIfFalsy(m: map<string, Json>, k: string, fallback: Json): (r: map<string, Json>)
    ensures r.Keys == m.Keys + {k}
    ensures Truthy(Get(m, k)) ==> r[k] == m[k]
    ensures !Truthy(Get(m, k)) ==> r[k] == fallback
    ensures forall j :: j in m && j != k ==> r[j] == m[j]
  {
    if Truthy(Get(m, k)) then m else m[k := fallback]
  }

  /**
   * The refined result: `article_url`, `image_url` and `title` each keep a
   * truthy value the model gave and otherwise take the command-line URL and
   * the scraped image and title; every other field is the model's.
   */
  function BackFilled(result: map<string, Json>, url: string, article: ArticleRecord): (r: map<string, Json>)
    ensures r.Keys == result.Keys + {ArticleUrlKey, ImageUrlKey, TitleKey}
    ensures r[ArticleUrlKey] == if Truthy(Get(result, ArticleUrlKey)) then result[ArticleUrlKey] else Str(url)
    ensures r[ImageUrlKey] == if Truthy(Get(result, ImageUrlKey)) then result[ImageUrlKey] else FromOptional(article.imageUrl)
    ensures r[TitleKey] == if Truthy(Get(result, TitleKey)) then result[TitleKey] else FromOptional(article.title)
    ensures forall k :: k in result && k !in {ArticleUrlKey, ImageUrlKey, TitleKey} ==> r[k] == result[k]
  {
    var withUrl := FillIfFalsy(result, ArticleUrlKey, Str(url));
    var withImage := FillIfFalsy(withUrl, ImageUrlKey, FromOptional(article.imageUrl));
    FillIfFalsy(withImage, TitleKey, FromOptional(article.title))
  }

  /** The three in-place refinements, in the order `main` makes them. */
  method BackFill(result: map<string, Json>, url: string, article: ArticleRecord) returns (refined: map<string, Json>)
    ensures refined == BackFilled(result, url, article)
  {
    refined := result;
    if !Truthy(Get(refined, ArticleUrlKey)) {
      refined := refined[ArticleUrlKey := Str(url)];
    }
    if !Truthy(Get(refined, ImageUrlKey)) || refined[ImageUrlKey] == Str("") {
      refined := refined[ImageUrlKey := FromOptional(article.imageUrl)];
    }
    if !Truthy(Get(refined, TitleKey)) {
      refined := refined[TitleKey := FromOptional(article.title)];
    }
  }

  /** Refining a refined result changes nothing. */
  lemma BackFilledIdempotent(result: map<string, Json>, url: string, article: ArticleRecord)
    ensures BackFilled(BackFilled(result, url, article), url, article) == BackFilled(result, url, article)
  {
    var once := BackFilled(result, url, article);
    var twice := BackFilled(once, url, article);
    forall k | k in twice ensures k in once && twice[k] == once[k] {
      if k !in {ArticleUrlKey, ImageUrlKey, TitleKey} {
        assert twice[k] == once[k];
      }
    }
  }

  /** A result that already has a truthy URL, image and title is passed through unchanged. */
  lemma BackFilledComplete(result: map<string, Json>, url: string, article: ArticleRecord)
    requires Truthy(Get(result, ArticleUrlKey)) && Truthy(Get(result, ImageUrlKey)) && Truthy(Get(result, TitleKey))
    ensures BackFilled(result, url, article) == result
  {
  }

  /** With a non-empty command-line URL, the refined result always carries a truthy `article_url`. */
  lemma BackFilledHasUrl(result: map<string, Json>, url: string, article: ArticleRecord)
    requires url != []
    ensures Truthy(BackFilled(result, url, article)[ArticleUrlKey])
  {
  }

  /**
   * The angle `main` records: `angle_description` of `instagram_post` when
   * that field is truthy (nothing when it is truthy but not an object), and
   * of the result itself otherwise.
   */
  function AngleOf(result: map<string, Json>): (angle: Json)
    ensures Truthy(angle) ==>
      || (!Truthy(Get(result, "instagram_post")) && "angle_description" in result && angle == result["angle_description"])
      || ("instagram_post" in result && result["instagram_post"].Obj?
          && "angle_description" in result["instagram_post"].fields
          && angle == result["instagram_post"].fields["angle_description"])
    ensures Truthy(Get(result, "instagram_post")) && !result["instagram_post"].Obj? ==> !Truthy(angle)
    ensures Truthy(Get(result, "instagram_post")) && result["instagram_post"].Obj? ==>
      angle == Get(result["instagram_post"].fields, "angle_description")
    ensures !Truthy(Get(result, "instagram_post")) ==> angle == Get(result, "angle_description")
  {
    var postData := if Truthy(Get(result, "instagram_post")) then result["instagram_post"] else Obj(result);
    if postData.Obj? then Get(postData.fields, "angle_description") else Str("")
  }

  /**
   * The angle the model reports inside `instagram_post`, as the prompt's
   * schema asks, is the one recorded: normalising the reply and refining the
   * result leave that object as it came.
   */
  lemma SchemaAngleRecorded(data: map<string, Json>, url: string, lang: string, article: ArticleRecord)
    requires "instagram_post" in data && data["instagram_post"].Obj? && data["instagram_post"].fields != map[]
    requires Normalised(data, url, lang).Some?
    ensures AngleOf(BackFilled(Normalised(data, url, lang).value, url, article)) == Get(data["instagram_post"].fields, "angle_description")
  {
    var n := Normalised(data, url, lang).value;
    assert n["instagram_post"] == data["instagram_post"];
    var b := BackFilled(n, url, article);
    assert b["instagram_post"] == data["instagram_post"];
  }

  /** No angle occurs twice in the list. */
  predicate Distinct(angles: seq<Json>) {
    forall i, j :: 0 <= i < j < |angles| ==> angles[i] != angles[j]
  }

  /** Every URL's list of angles is free of repeats. */
  predicate HistoryDistinct(history: map<string, seq<Json>>) {
    forall u :: u in history ==> Distinct(history[u])
  }

  /**
   * The history once `angle` has been offered for `url`: a truthy angle not
   * yet listed for the URL is appended to its list (created empty when the
   * URL is new); otherwise the history is as it was.
   */
  function WithAngle(history: map<string, seq<Json>>, url: string, angle: Json): (r: map<string, seq<Json>>)
    ensures r.Keys == if Truthy(angle) then history.Keys + {url} else history.Keys
    ensures Truthy(angle) ==> angle in r[url]
    ensures forall u :: u in history && u != url ==> r[u] == history[u]
    ensures url in history ==> history[url] <= r[url] && |r[url]| <= |history[url]| + 1
    ensures url !in history && Truthy(angle) ==> r[url] == [angle]
  {
    if !Truthy(angle) then history
    else if url in history && angle in history[url] then history
    else history[url := (if url in history then history[url] else []) + [angle]]
  }

  /** Offering an angle keeps every list free of repeats. */
  lemma WithAngleKeepsDistinct(history: map<string, seq<Json>>, url: string, angle: Json)
    requires HistoryDistinct(history)
    ensures HistoryDistinct(WithAngle(history, url, angle))
  {
  }

  /** Offering the same angle twice is offering it once. */
  lemma WithAngleIdempotent(history: map<string, seq<Json>>, url: string, angle: Json)
    ensures WithAngle(WithAngle(history, url, angle), url, angle) == WithAngle(history, url, angle)
  {
  }

  /** A falsy angle never touches the history. */
  lemma FalsyAngleIgnored(history: map<string, seq<Json>>, url: string, angle: Json)
    requires !Truthy(angle)
    ensures WithAngle(history, url, angle) == history
  {
  }

  /** The angle history as `main` holds it, and how often it has been written out. */
  class AngleHistory {
    var entries: map<string, seq<Json>>
    var saves: nat

    /** The history as loaded at start-up. */
    constructor(loaded: map<string, seq<Json>>)
      ensures entries == loaded && saves == 0
    {
      entries := loaded;
      saves := 0;
    }

    /**
     * Offers `angle` for `url`; the history is written out exactly when the
     * angle is appended.
     */
    method Record(url: string, angle: Json) returns (appended: bool)
      modifies this
      ensures entries == WithAngle(old(entries), url, angle)
      ensures appended <==> Truthy(angle) && !(url in old(entries) && angle in old(entries)[url])
      ensures appended <==> entries != old(entries)
      ensures saves == old(saves) + (if appended then 1 else 0)
      ensures HistoryDistinct(old(entries)) ==> HistoryDistinct(entries)
    {
      ghost var before := entries;
      appended := false;
      if Truthy(angle) {
        if url !in entries {
          entries := entries[url := []];
        }
        var listed := entries[url];
        assert listed == if url in before then before[url] else [];
        if angle !in listed {
          entries := entries[url := listed + [angle]];
          saves := saves + 1;
          appended := true;
          assert entries == before[url := listed + [angle]];
          assert url !in before || |entries[url]| != |before[url]|;
        }
      }
      if HistoryDistinct(before) {
        WithAngleKeepsDistinct(before, url, angle);
      }
    }
  }

  /** What `main` outputs for a generated result: nothing for a failed or empty one. */
  function Outcome(url: string, article: ArticleRecord, generated: Option<map<string, Json>>): (output: Option<map<string, Json>>)
    ensures output.None? <==> generated.None? || generated.value == map[]
    ensures output.Some? ==> output.value.Keys == generated.value.Keys + {ArticleUrlKey, ImageUrlKey, TitleKey}
  {
    if generated.None? || generated.value == map[] then None
    else Some(BackFilled(generated.value, url, article))
  }

  /** The history after the run: the output's angle is offered when there is an output and a URL. */
  function RecordedHistory(history: map<string, seq<Json>>, url: string, output: Option<map<string, Json>>): (r: map<string, seq<Json>>)
    ensures output.None? || url == [] ==> r == history
    ensures r.Keys >= history.Keys
  {
    if output.Some? && url != [] then WithAngle(history, url, AngleOf(output.value)) else history
  }

  /**
   * `main` after generation: stop on a failed or empty result; otherwise
   * refine it and record its angle.
   */
  method CompleteRun(url: string, article: ArticleRecord, generated: Option<map<string, Json>>, history: AngleHistory)
    returns (output: Option<map<string, Json>>)
    modifies history
    ensures output == Outcome(url, article, generated)
    ensures history.entries == RecordedHistory(old(history.entries), url, output)
    ensures history.saves == old(history.saves) + (if history.entries != old(history.entries) then 1 else 0)
  {
    if generated.None? || generated.value == map[] {
      return None;
    }
    var result := BackFill(generated.value, url, article);
    output := Some(result);
    if url != [] {
      var angle := AngleOf(result);
      var _ := history.Record(url, angle);
    }
  }

  /**
   * One run of the agent for `url`, given what the fetch returned and what
   * the model replied. Returns the scraped record and the output object.
   */
  method RunAgent(url: string, fetched: Option<Page>, reply: Option<Json>, history: AngleHistory)
    returns (article: Option<ArticleRecord>, output: Option<map<string, Json>>)
    modifies history
    ensures article.None? <==> fetched.None?
    ensures article.None? ==> output.None? && history.entries == old(history.entries) && history.saves == old(history.saves)
    ensures article.Some? ==> article.value.url == url
    ensures article.Some? && (reply.None? || !reply.value.Obj?) ==>
      output.None? && history.entries == old(history.entries) && history.saves == old(history.saves)
    ensures article.Some? && reply.Some? && reply.value.Obj? ==>
      && output == Outcome(url, article.value, Normalised(reply.value.fields, url, TargetLanguage(url)))
      && history.entries == RecordedHistory(old(history.entries), url, output)
      && history.saves == old(history.saves) + (if history.entries != old(history.entries) then 1 else 0)
    ensures output.None? ==> history.entries == old(history.entries) && history.saves == old(history.saves)
  {
    article := ScrapeArticle(url, fetched);
    if article.None? {
      return None, None;
    }
    var _, generated := GenerateInstagramPost(article.value, history.entries, reply);
    output := CompleteRun(url, article.value, generated, history);
  }
}
