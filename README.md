# Navichain Instagram agent — a Dafny model

The agent takes the URL of one article and works through four steps:

1. It scrapes the page into an article record: title, headings, a body excerpt, a featured image URL and source tags.
2. It asks a language model for an Instagram caption in the article's language, naming the angles already used for that URL.
3. It normalises the model's JSON reply into a result object.
4. It fills in the URL, image and title the model left out, and appends the new angle to a per-URL angle history.

This project models the decision logic of those steps. The fetch, the HTML parser, the model call and the history file are abstracted away.

Modules (one file each):

- `Opt` (`option.dfy`): `Option`, which stands for Python's `None`.
- `PyText` (`pytext.dfy`): the Python string operations the agent uses, on `seq<char>`:
  - `strip()`, with Python's whitespace set;
  - `in` and `startswith`;
  - `replace`, a single non-overlapping pass from left to right;
  - `split(',')`, `join` and the slice `[:n]`.
- `JsonValues` (`json.dfy`): decoded JSON values, Python truthiness and `dict.get`.
- `Extract` (`extract.dfy`): `scrape_article`, from a parsed page to the article record. The loops and step-by-step reassignments are methods proved against specification functions and rules.
- `Generate` (`generate.dfy`): covers three parts of `generate_instagram_post`:
  - the language choice and the prior-angles gate;
  - where the caption is found;
  - the caption cleaning and the in-place normalisation of the reply.
- `Run` (`run.dfy`): `main` after generation:
  - the in-place back-fill of the result;
  - the angle lookup;
  - the angle history, as a class whose `entries` map is updated in place and whose `saves` counter counts calls to `save_history`;
  - `RunAgent`, which chains the whole run.

## Model

| member | source | states |
|---|---|---|
| PyText.TrimLeft | create_instagram_agent.py:230 | The result is a suffix of the input, everything cut off is whitespace, and the result does not start with whitespace. |
| PyText.TrimRight | create_instagram_agent.py:230 | The result is a prefix of the input, everything cut off is whitespace, and the result does not end with whitespace. |
| PyText.Strip | create_instagram_agent.py:230 | `str.strip()`: the result neither starts nor ends with whitespace, and it is the input less some leading and all trailing whitespace. |
| PyText.StripIdempotent | create_instagram_agent.py:230 | Stripping twice equals stripping once. |
| PyText.Contains | create_instagram_agent.py:158 | `p in s`: `p` occurs at some index of `s`. An occurrence needs `p` to be no longer than `s`, and a prefix always occurs. |
| PyText.StartsWith | create_instagram_agent.py:121 | `s.startswith(p)` holds exactly when `p` is a prefix of `s`. |
| PyText.ReplaceAll | create_instagram_agent.py:222 | `str.replace` with an empty replacement never lengthens the string. |
| PyText.ReplaceAbsent | create_instagram_agent.py:222 | `replace` leaves a string that does not contain the pattern unchanged. |
| PyText.AbsentFirstChar | create_instagram_agent.py:227 | A pattern whose first character is missing from a string does not occur in it. |
| PyText.ReplaceSkipsPrefix | create_instagram_agent.py:228 | Text before the first possible start of the pattern passes through `replace` untouched. |
| PyText.ReplaceLeading | create_instagram_agent.py:228 | An occurrence at the very start is replaced and scanning resumes after it. |
| PyText.SplitOn | create_instagram_agent.py:129 | `split(',')` yields at least one piece, and no piece contains the separator. |
| PyText.JoinSplit | create_instagram_agent.py:129 | Joining the pieces of a split with the separator gives back the original string. |
| PyText.Join | create_instagram_agent.py:102 | `sep.join(parts)`: one part joins to itself, and the first part is a prefix of the result. |
| PyText.Truncate | create_instagram_agent.py:143 | The slice `[:n]` is a prefix of at most `n` characters. It is the whole string when that fits, otherwise exactly `n` characters. |
| JsonValues.Get | create_instagram_agent.py:275 | `dict.get` returns the stored value for a present key and a falsy value for a missing one. |
| JsonValues.FromOptional | create_instagram_agent.py:279-282 | A scraped `str`/`None` value is truthy exactly when it is a non-empty string. |
| Extract.FindMeta | create_instagram_agent.py:106 | `soup.find('meta', …)` returns the index of the first matching meta, and none when no meta matches. |
| Extract.LongParagraphs | create_instagram_agent.py:96-100 | The order-preserving filter keeps no more paragraphs than it gets, and only paragraphs of the input longer than 40 characters. |
| Extract.LongParagraphsExact | create_instagram_agent.py:96-100 | The kept paragraphs are exactly those longer than 40 characters, each with its multiplicity. |
| Extract.KeepLongParagraphs | create_instagram_agent.py:96-100 | The paragraph loop keeps exactly the long paragraphs in document order, and each kept one is longer than 40 characters. |
| Extract.Content | create_instagram_agent.py:102-143 | The excerpt is a prefix of the `"\n\n"`-join of the long paragraphs. Its length is that join's length, capped at 15000. |
| Extract.SecureUrl | create_instagram_agent.py:121-122 | An `http://` URL becomes `https://` followed by the rest of the URL, in which every further `http://` is rewritten too. No result starts with `http://`. Any other URL is unchanged. |
| Extract.SecureUrlExample | create_instagram_agent.py:121-122 | `http://cdn.example.com/x.jpg` becomes `https://cdn.example.com/x.jpg`. |
| Extract.KeywordsContent | create_instagram_agent.py:127-128 | The keywords come from the first `name="keywords"` meta. They are used exactly when that meta has non-empty content, and they are then that content. |
| Extract.StripPieces | create_instagram_agent.py:129 | `[t.strip() for t in c.split(',')]` has one entry per comma piece, at least one. |
| Extract.StripPiecesTrimmed | create_instagram_agent.py:129 | Every stripped keyword piece has no surrounding whitespace. |
| Extract.ArticleTags | create_instagram_agent.py:132-134 | The `article:tag` loop contributes at most one tag per meta. |
| Extract.TagSet | create_instagram_agent.py:137 | `list(set(filter(None, tags)))` holds exactly the non-empty tags of the list, and never the empty string. |
| Extract.ArticleTagsMembers | create_instagram_agent.py:132-134 | A tag is collected from `article:tag` metas exactly when some such meta has non-empty content that strips to it. |
| Extract.KeywordPiecesMembers | create_instagram_agent.py:127-129 | A tag is a keyword piece exactly when it is the strip of one comma-separated piece of the first keywords meta's non-empty content. |
| Extract.StripPiecesMembers | create_instagram_agent.py:129 | A string is among the stripped pieces exactly when it is the strip of some comma-separated piece. |
| Extract.TagsExact | create_instagram_agent.py:125-137 | After deduplication the tags are exactly the non-empty stripped keyword pieces and `article:tag` contents. |
| Extract.SplitKeywords | create_instagram_agent.py:127-129 | The keyword step yields exactly the stripped comma pieces of the first keywords meta's non-empty content, and nothing otherwise. |
| Extract.CollectTags | create_instagram_agent.py:125-134 | The tag loops build the keyword pieces followed by the `article:tag` contents in document order. |
| Extract.SourceTags | create_instagram_agent.py:125-137 | The deduplicated tag set holds exactly the non-empty stripped keyword pieces and `article:tag` contents. |
| Extract.CollectHeadings | create_instagram_agent.py:91-93 | The heading loop keeps every `<h2>`/`<h3>` text, in document order. |
| Extract.ResolveTitle | create_instagram_agent.py:83-118 | The title follows the code's precedence: `og:title` decides even without content; otherwise `<h1>` decides even when empty; otherwise a non-empty `<title>`; otherwise "Untitled Article". |
| Extract.SelectImage | create_instagram_agent.py:105-122 | The presence of `og:image` alone blocks the `twitter:image` fallback. With neither tag the image is `""`. The result never starts with `http://`. |
| Extract.AssembleRecord | create_instagram_agent.py:82-146 | The record keeps the URL and the headings in order. It applies the title rule, the content rule and the image rule, and its tag set is exactly the non-empty stripped tags. |
| Extract.ScrapeArticle | create_instagram_agent.py:74-149 | A failed fetch gives no record. Otherwise the record satisfies every rule above. |
| Generate.TargetLanguage | create_instagram_agent.py:157-159 | The language is "en" exactly when the URL contains `en-gb`, `/en/` or `-en-`, and "sv" exactly when it contains none of them. |
| Generate.EnglishPathSegment | create_instagram_agent.py:158 | Any URL with a `/en/` segment gets English. |
| Generate.PreviousAngles | create_instagram_agent.py:162-172 | The prior-angles section exists exactly when the history maps the URL to a non-empty list, and it then lists that whole list. |
| Generate.ResolveCaption | create_instagram_agent.py:210-213 | A top-level `post_text` wins. Otherwise `caption_text` comes from `instagram_post` when that key exists (and only if it is an object), or from the top level when it does not. |
| Generate.CaptionFoundWhenPresent | create_instagram_agent.py:210-213 | A caption is found whenever `post_text`, or `caption_text` where it is looked for, exists. |
| Generate.Scrubbed | create_instagram_agent.py:220-222 | Removing the garbage markers never lengthens the text. |
| Generate.RemoveUrl | create_instagram_agent.py:227-228 | Removing the URL never lengthens the text and leaves a text without the URL unchanged. |
| Generate.CleanCaption | create_instagram_agent.py:219-230 | The cleaned caption has no leading or trailing whitespace and is no longer than the raw one. |
| Generate.CleanText | create_instagram_agent.py:217-230 | The marker loop, the URL removal and the strip compute the cleaned caption. |
| Generate.CleanCaptionKeepsClean | create_instagram_agent.py:217-230 | A caption with no marker, no URL and no surrounding whitespace comes out unchanged. |
| Generate.ScrubbedKeeps | create_instagram_agent.py:220-222 | The marker removal leaves a text without markers unchanged. |
| Generate.RemoveUrlBetween | create_instagram_agent.py:227-228 | The URL is cut out literally, and the text on both sides stays exactly as it was. |
| Generate.ScrubbedWithoutMarkers | create_instagram_agent.py:220-222 | A text without `C` or `*` is untouched by the marker removal. |
| Generate.RemoveUrlSinglePass | create_instagram_agent.py:228 | The single pass of `replace` can leave the URL in the caption ("aabb" with URL "ab" gives "ab"). |
| Generate.CleanCaptionAroundUrl | create_instagram_agent.py:217-230 | Cleaning text + URL + text gives the two texts side by side, with internal whitespace not collapsed. |
| Generate.CleanCaptionExample | create_instagram_agent.py:217-230 | "Hello https://site.com/a world" with URL `https://site.com/a` gives "Hello  world", two spaces included. |
| Generate.Normalised | create_instagram_agent.py:209-239 | A non-string caption fails the generation. With no caption the reply is unchanged. With a caption, `post_text` is the cleaned caption and `language` is set, so `language` is added exactly when a caption is found. Every other field is kept. |
| Generate.NormalisedCaptionTrimmed | create_instagram_agent.py:230-232 | The normalised `post_text` has no surrounding whitespace. |
| Generate.NormalisedNestedCaption | create_instagram_agent.py:210-232 | A reply holding only `instagram_post` with a string `caption_text` gets that caption, cleaned, as `post_text`. |
| Generate.NormalisedExample | create_instagram_agent.py:209-233 | A reply in the prompt's nested schema, whose caption is "Hello " + URL + " world", comes out with `post_text` "Hello " + " world", two spaces included. |
| Generate.NormaliseReply | create_instagram_agent.py:209-235 | The in-place normalisation yields exactly `Normalised`. |
| Generate.GenerateInstagramPost | create_instagram_agent.py:157-239 | The prior-angles section is `PreviousAngles`. A missing or non-object reply fails. Otherwise the result is the normalised reply in the URL's language. |
| Run.FillIfFalsy | create_instagram_agent.py:275-282 | A field keeps a truthy value and takes the fallback otherwise. Nothing else changes. |
| Run.BackFilled | create_instagram_agent.py:275-282 | Each of `article_url`, `image_url` and `title` is replaced only when falsy, by the CLI URL or the scraped image or title. All other fields are the model's. |
| Run.BackFill | create_instagram_agent.py:275-282 | The three in-place refinements yield exactly `BackFilled`. |
| Run.BackFilledIdempotent | create_instagram_agent.py:275-282 | Back-fill is idempotent. |
| Run.BackFilledComplete | create_instagram_agent.py:275-282 | A result whose three fields are already truthy is unchanged. |
| Run.BackFilledHasUrl | create_instagram_agent.py:275-276 | With a non-empty URL, the output always carries a truthy `article_url`. |
| Run.AngleOf | create_instagram_agent.py:290-293 | When `instagram_post` is truthy and an object, the angle is its `angle_description`. When it is truthy but not an object, there is no angle. When it is falsy, the angle is the top-level `angle_description`. |
| Run.SchemaAngleRecorded | create_instagram_agent.py:209-293 | For a reply in the prompt's nested schema, the angle recorded is the `angle_description` inside `instagram_post`. |
| Run.WithAngle | create_instagram_agent.py:295-300 | A truthy angle ends up listed for the URL. Other URLs' lists are untouched. The URL's old list is a prefix of the new one, which is at most one longer. |
| Run.WithAngleKeepsDistinct | create_instagram_agent.py:299-300 | Lists without duplicates stay without duplicates. |
| Run.WithAngleIdempotent | create_instagram_agent.py:299-300 | Offering the same angle twice equals offering it once. |
| Run.FalsyAngleIgnored | create_instagram_agent.py:295 | A falsy angle leaves the history unchanged. |
| Run.AngleHistory.constructor | create_instagram_agent.py:264 | The history starts as loaded, with no saves. |
| Run.AngleHistory.Record | create_instagram_agent.py:295-301 | The history becomes `WithAngle`. An append happens exactly when the angle is truthy and not yet listed, which is exactly when the history changes. The history is saved once per append and otherwise never. Distinctness is preserved. |
| Run.Outcome | create_instagram_agent.py:270-282 | A failed or empty result ends the run with no output. Otherwise the output is the back-filled result, with the three keys added. |
| Run.RecordedHistory | create_instagram_agent.py:289 | Without an output or with an empty URL, the history is unchanged. It never loses a URL. |
| Run.CompleteRun | create_instagram_agent.py:270-302 | The output is `Outcome`, the history is `RecordedHistory`, and one save happens exactly when the history changed. |
| Run.RunAgent | create_instagram_agent.py:255-302 | A failed scrape or generation, or no output, leaves the history and its saves untouched. Otherwise the output and history follow `Outcome` and `RecordedHistory` for the normalised reply, with one save exactly when the history changed. |

Behaviours of the code worth knowing, which the model keeps:

- **Title and image are not "first non-empty wins".**
  - An `og:title` meta without content gives the title `None`.
  - An empty `<h1>` gives the empty title, even when `<title>` has text.
  - An `og:image` meta without content gives the image `None`; `twitter:image` is not consulted.
- **URL removal is one pass of `replace`.** Lines 227-228 remove the literal article URL with a single `replace`. The caption can still hold the URL afterwards when removing an inner copy makes a new one appear (`Generate.RemoveUrlSinglePass`). Other spellings of the same URL (a trailing slash, tracking parameters) are not removed either.

## Left out

- HTTP fetch and HTML parsing:
  - `requests.get` and `raise_for_status`;
  - BeautifulSoup's parsing, and its `get_text(strip=True)`, which are taken as already done: a `Page` holds the title string, the first `<h1>` text, the heading and paragraph texts and the meta tags;
  - any exception in scraping, which is the `None` page.
- The language-model call and `json.loads`: the decoded reply is an input, and `None` stands for a call or decode that raised. The prompt's wording is free text and is not modelled, beyond the prior-angles gate.
- Python exceptions raised while normalising:
  - a reply that is not an object;
  - a `post_text` that is not a string.

  Both are modelled as the generation failing (`None`), as the handler returns `None`.
- History file I/O:
  - `load_history` and `save_history` with their JSON encoding;
  - recovery from a corrupt file;
  - a history file that holds something other than an object of lists.

  The history is an in-memory map, and each call to `save_history` is one increment of `saves`.
- The `.env` loader, `get_api_key`, `argparse`, logging to stderr, `sys.exit` (modelled as no output), printing the output JSON and the webhook POST: all environment and network side effects.
- Python's cross-type equality (`True == 1 == 1.0`) in `new_angle not in history[url]`: angles are compared as JSON values.
- JSON numbers are modelled as `real`.
- Extract.ScrapeArticle: the tag list is modelled as the set it is built from, because the order of `list(set(...))` is unspecified.
