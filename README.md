# DaeTRIP / RecMap prototypes in Dafny

A model of the computational core of the RecMap Streamlit prototypes, a set of
small tourist-route demos for Daejeon, South Korea. It covers:

- **Traveler-type survey.** This is shared by `daetrip_v1/app.py` and
  `prettymapp/app.py` (module `Survey`). Seven Likert answers (1..5) are scored
  against a three-row weight table. Each score is a dot product over `zip`, rounded
  to one decimal. The winner is Python's `max` over the score dict. The winner picks
  a map style (`Survey.StyleFor`).
- **Survey maps.** In `daetrip_v1/app.py` (module `DaeTripV1`), the winning type
  selects a spot list, its centroid as map centre, radius 4000 and the recommended
  sites. In `prettymapp/app.py` (module `Prettymapp`), the radius is 2000 and the
  centre is fixed. Coordinates and the centroid live in module `Geo`. The eight-site
  catalog lives in module `Daejeon`.
- **Route map of `st_plot_all`** in `ChatDPT/utils.py` (module `RouteMap`). Each site
  gets a nearest road node. A shortest path is searched for each consecutive pair of
  nodes. A missing path skips only its own segment, and every site gets a marker.
  The folium map is a class with marker and polyline lists (module `Folium`).
- **`get_colors_from_style`** (module `StyleColors`) and **`slugify`** (module `Slug`),
  both from `ChatDPT/utils.py`.
- **Chat pages** `ChatDPT/app.py` and `ChatDPT/app1.py`. Module `ChatSession` holds
  the session record, its initialisation, the two-message exchange and the
  origin-dependent rendering. Module `ChatPrompt` holds the numbered survey prompt.
  The two files repeat the same session code (`ChatDPT/app1.py:62-118` is
  `ChatDPT/app.py:10-66`), so one module models both.
- **Site pickers** `daetrip_v0/app.py` (module `DaeTripV0`) and the root `app.py`
  (module `SiteSelection`). Both share the order-preserving "add a marker for each
  chosen site the catalog knows" loop (module `SiteFilter`).

Representation choices:

- Weights and scores are whole hundredths, so 0.20 is 20 and a score of 0.9 is 90.
  Dot products are therefore exact.
- Python's `round(x, 1)` is a parameter `round: int -> int`. Where a concrete
  outcome is proved, it is constrained by `Survey.RoundsToTenths`: the result is a
  whole number of tenths and at most half a tenth from its argument.
- Dicts whose insertion order matters are sequences of pairs: the weight table,
  the scores, `recommended_sites` and the style table. Lookup-only dicts are Dafny
  maps. Coordinates are `real`.
- The language-model reply, its token count, the road graph (`nearest_nodes`,
  `shortest_path`, node `x`/`y`) and the slider values are parameters.
- A folium `MarkerCluster` is represented by its map's own marker list.
- `ChatSession.SessionState` is a class whose `Option` fields stand for
  `st.session_state` keys that may be absent.

The winner's tie-break follows the code: Python's `max` returns the first maximal
key in the table's order (`Survey.FirstMax`). Breaking ties by name instead would
still pick Community-focused on the default answers, but would change the winner
whenever Tech-savvy ties with another type; the model keeps the code's rule.

## Model

| member | source | states |
|---|---|---|
| Survey.Dot | daetrip_v1/app.py:67 | the sum of response times weight over `zip(responses, weights)`; its properties are in `Survey.DotTruncates` and `Survey.DotUniform` |
| Survey.Scores | daetrip_v1/app.py:66-68 | the score dict comprehension: one (type, rounded dot product) entry per table key, in table order; stated through `Survey.Classify` |
| Survey.DotTruncates | daetrip_v1/app.py:66-69 | a type's score uses only the first min(\|responses\|, \|weights\|) pairs, as `zip` truncates |
| Survey.FirstMax | daetrip_v1/app.py:72 | the chosen index has a score at least every other score, and every earlier entry scores strictly less (first maximal key wins) |
| Survey.Classify | daetrip_v1/app.py:58-72 | one score per table key, in table order, each the rounded zip dot product; the chosen type is a table key with the maximal score and no earlier key reaches it |
| Survey.StyleFor | daetrip_v1/app.py:93-107 | the style is always one of Peach, Flannel, Citrus |
| Survey.StyleIdentifiesType | prettymapp/app.py:63-71 | the three types get pairwise different styles: Peach iff Practical Leisure Seeker, Flannel iff Community-focused, Citrus iff Tech-savvy |
| Survey.WeightTableShape | daetrip_v1/app.py:35-62 | three types in the order Tech-savvy, Community-focused, Practical Leisure Seeker, each with one weight per question (7) |
| Survey.CollectResponses | daetrip_v1/app.py:46-55 | the slider loop yields one answer in 1..5 per question, answer i at position i (same loop at prettymapp/app.py:35-44) |
| Survey.RoundKeepsTenths | daetrip_v1/app.py:67 | rounding to one decimal leaves a score that is already a whole number of tenths unchanged |
| Survey.DotUniform | daetrip_v1/app.py:67 | with every answer equal to c, a score is c times the sum of the type's weights |
| Survey.DefaultDots | daetrip_v1/app.py:52-67 | with every slider at 3 the exact dot products are 0.6, 0.9 and 0.9 |
| Survey.DefaultScores | daetrip_v1/app.py:52-69 | with every slider at 3, and a rounding that keeps 0.6 and 0.9, the score dict is Tech-savvy 0.6, Community-focused 0.9, Practical Leisure Seeker 0.9 |
| Survey.DefaultSurvey | daetrip_v1/app.py:52-72 | with every slider at 3, Community-focused wins its tie with Practical Leisure Seeker by coming first |
| Geo.Resolve | daetrip_v1/app.py:81-82 | looking up each spot gives one coordinate per name, in list order, each the catalog entry |
| Geo.Centroid | daetrip_v1/app.py:83-84 | the mean latitude and mean longitude of the coordinates; bounded by `Geo.CentroidWithin`, order-free by `Geo.CentroidOrderIndependent` |
| Geo.CentroidWithin | daetrip_v1/app.py:83-84 | the mean latitude lies between the smallest and largest latitude, and likewise the longitude |
| Geo.CentroidOrderIndependent | daetrip_v1/app.py:80-85 | reordering the spots' coordinates does not move the centre |
| DaeTripV1.SpotListsResolve | daetrip_v1/app.py:24-77 | every spot list has three distinct names, all keys of `sites_data`, so no lookup fails and no dict entry is lost |
| DaeTripV1.SpotsFor | daetrip_v1/app.py:74-107 | each branch uses a three-name spot list whose names are all keys of `sites_data` |
| DaeTripV1.RecommendedSites | daetrip_v1/app.py:97-107 | the comprehension `{site: sites_data[site] for site in spots}`: each spot with its catalog coordinates, in list order |
| DaeTripV1.CenterCoordinates | daetrip_v1/app.py:80-85 | the centre of a spot list lies within the latitude and longitude range of its spots |
| DaeTripV1.PlanFor | daetrip_v1/app.py:93-107 | the style follows the type, the radius is 4000 in every branch, the centre is the centroid of the type's spots, and the recommended sites are exactly those spots, in list order, with their catalog coordinates |
| DaeTripV1.Finalize | daetrip_v1/app.py:64-107 | "Finalize Survey" scores all three types, picks the first maximal one, and plans that type's map |
| DaeTripV1.DefaultFinalize | daetrip_v1/app.py:52-102 | default answers give the Community-focused Flannel map at radius 4000 with three sites starting at Ppuri Park |
| Prettymapp.SurveyMap | prettymapp/app.py:53-78 | scores per table key, first maximal winner, style by type, radius 2000, centre (36.3504, 127.3845) |
| Prettymapp.CentreIndependentOfType | prettymapp/app.py:62-78 | any two sets of answers give the same centre and radius |
| Prettymapp.DefaultSurveyMap | prettymapp/app.py:41-71 | default answers give Community-focused and the Flannel style |
| RouteMap.BoundsCenter | ChatDPT/utils.py:43-44 | the map centre is equidistant from both bounds on each axis and lies inside well-formed bounds |
| RouteMap.SiteMarkers | ChatDPT/utils.py:48-49 | one marker per site, in order, at its lat/lon with its name as popup |
| RouteMap.SiteNodes | ChatDPT/utils.py:53-56 | the nearest road node of each site, looked up at (lon, lat), in site order; `RouteMap.NearestNodes` computes it |
| RouteMap.Segments | ChatDPT/utils.py:60-63 | the path search for each consecutive pair of site nodes, `None` where no path exists |
| RouteMap.RouteLine | ChatDPT/utils.py:64-65 | the dodgerblue, weight 5, opacity 1 polyline through the (y, x) points of a path's nodes |
| RouteMap.RouteLines | ChatDPT/utils.py:60-67 | the polylines of the found segments, in order; characterised by `RouteMap.RouteLinesCount`, `RouteMap.MissingSegmentSkipped` and `RouteMap.FoundSegmentDrawn` |
| RouteMap.RouteLinesCount | ChatDPT/utils.py:60-67 | one polyline per segment with a path, never more polylines than consecutive pairs |
| RouteMap.RouteLinesAppend | ChatDPT/utils.py:60-67 | the lines drawn for consecutive runs of pairs are the lines of each run, in order, and their counts add up |
| RouteMap.MissingSegmentSkipped | ChatDPT/utils.py:62-67 | a pair with no path contributes no polyline and leaves the lines before and after it as they are |
| RouteMap.FoundSegmentDrawn | ChatDPT/utils.py:63-65 | a pair with a path is drawn as the polyline of its nodes' (y, x) points, placed after the lines of the earlier found paths |
| RouteMap.AddSiteMarkers | ChatDPT/utils.py:48-49 | the pin map gets one marker per site, in order, at the site's lat/lon with its name as popup |
| RouteMap.NearestNodes | ChatDPT/utils.py:53-56 | exactly one nearest node per site, in site order, looked up at (lon, lat) |
| RouteMap.DrawRoute | ChatDPT/utils.py:58-72 | the route map ends with one marker per site, found or not, and the polylines of exactly the consecutive pairs that have a path |
| RouteMap.PlotRoutes | ChatDPT/utils.py:38-77 | two new zoom-13 maps at the bounds centre: pins for every site on the first, markers and route segments on the second |
| Folium.FoliumMap.constructor | ChatDPT/utils.py:45 | a new map has the given centre and zoom and no markers or lines |
| Folium.FoliumMap.AddMarker | ChatDPT/utils.py:49 | adding a marker appends it and leaves the lines alone |
| Folium.FoliumMap.AddPolyLine | ChatDPT/utils.py:65 | adding a line appends it and leaves the markers alone |
| StyleColors.ChosenColour | ChatDPT/utils.py:86 | the `cmap` value when the key is present (even when it holds None), otherwise the `fc` value or None |
| StyleColors.IndexedKey | ChatDPT/utils.py:89 | the key `f"{lc_class}_{idx}"` |
| StyleColors.ClassEntries | ChatDPT/utils.py:87-91 | one class's assignments: `class_idx` to element idx for a list colour, else `class` to the colour or None |
| StyleColors.Entries | ChatDPT/utils.py:85-91 | the assignments of the nested loops, class by class: `class_idx` per list element, else one `class` entry |
| StyleColors.MapOf | ChatDPT/utils.py:84-91 | the dict those assignments build, later writes winning; characterised by `StyleColors.MapOfKeys` and `StyleColors.MapOfLastWins` |
| StyleColors.ColorsFromStyle | ChatDPT/utils.py:80-92 | the nested loop builds exactly the dict of the flattened entries, later writes winning |
| StyleColors.AssignClass | ChatDPT/utils.py:86-91 | one class adds its entries: `class_idx` per palette element or `class` for a single colour |
| StyleColors.MapOfKeys | ChatDPT/utils.py:84-91 | the result's keys are exactly the keys written by the loop |
| StyleColors.MapOfLastWins | ChatDPT/utils.py:89-91 | a key's value is the colour of its last write |
| StyleColors.ClassEntrySurvives | ChatDPT/utils.py:85-91 | with no key written twice, every entry of every class is in the result with its colour |
| StyleColors.PaletteColours | ChatDPT/utils.py:87-89 | a list colour maps `class_idx` to element idx for every index |
| StyleColors.SingleColour | ChatDPT/utils.py:90-91 | a non-list colour (or none) maps the plain class name to it |
| StyleColors.CmapNoneHidesFc | ChatDPT/utils.py:86-91 | a `cmap` key holding None maps the class to None, whatever `fc` holds |
| StyleColors.CmapPreferred | ChatDPT/utils.py:86 | when the `cmap` key is present, even holding None, the `fc` value has no effect on the result |
| StyleColors.EntriesSameColours | ChatDPT/utils.py:86 | two tables that choose the same colours per class give the same entries |
| Slug.Slugify | ChatDPT/utils.py:121-139 | the composition ASCII step, lower-casing, deletion of `[^\w\s-]`, collapse of `[-\s]+` and `strip("-_")`, on the normalised text |
| Slug.AsciiOnly | ChatDPT/utils.py:133-137 | the ASCII step keeps only ASCII characters of its input |
| Slug.Lower | ChatDPT/utils.py:138 | lower-casing maps each character in place and keeps the length |
| Slug.KeepSlugChars | ChatDPT/utils.py:138 | removing `[^\w\s-]` keeps only word characters, whitespace and dashes of the input |
| Slug.CollapseFrom | ChatDPT/utils.py:139 | the left-to-right substitution of `[-\s]+` by `-`; its properties are in `Slug.CollapseShape`, `Slug.CollapseKeepsWords` and `Slug.CollapseKeeps` |
| Slug.CollapseShape | ChatDPT/utils.py:139 | after replacing `[-\s]+` by `-`, every character is a `-` or a non-separator of the input, and no `--` remains |
| Slug.StripLeft | ChatDPT/utils.py:139 | the leading strip removes a prefix made only of `-` and `_` and stops at the first other character |
| Slug.StripRight | ChatDPT/utils.py:139 | the trailing strip removes a suffix made only of `-` and `_` and stops at the last other character |
| Slug.Strip | ChatDPT/utils.py:139 | the result of `strip("-_")` neither starts nor ends with `-` or `_` |
| Slug.StripIsSubstring | ChatDPT/utils.py:139 | the result of `strip("-_")` is a contiguous substring of its input |
| Slug.LowerRemovesUpper | ChatDPT/utils.py:138 | no upper-case letter survives lower-casing |
| Slug.KeptChars | ChatDPT/utils.py:133-138 | after the ASCII, lower and filter steps only lowercase letters, digits, `_`, `-` and whitespace remain |
| Slug.CollapsedShape | ChatDPT/utils.py:139 | after collapsing only lowercase letters, digits, `_` and single dashes remain |
| Slug.SliceShape | ChatDPT/utils.py:139 | any substring of text with only slug characters and no `--` has the same two properties |
| Slug.SubstringKeepsShape | ChatDPT/utils.py:139 | stripping text with only slug characters and no `--` yields a slug |
| Slug.SlugifyIsSlug | ChatDPT/utils.py:121-139 | every output uses only `[a-z0-9_-]`, has no `--`, and does not start or end with `-` or `_` |
| Slug.AsciiOnlyKeepsAscii | ChatDPT/utils.py:133-137 | ASCII text passes the ASCII step unchanged |
| Slug.LowerKeepsLower | ChatDPT/utils.py:138 | text without upper-case letters passes lower-casing unchanged |
| Slug.KeepSlugCharsKeeps | ChatDPT/utils.py:138 | word characters, whitespace and `-` pass the filter unchanged |
| Slug.CollapseKeeps | ChatDPT/utils.py:139 | text of slug characters without `--` passes the collapse unchanged |
| Slug.StripKeeps | ChatDPT/utils.py:139 | text not starting or ending with `-`/`_` passes the strip unchanged |
| Slug.SlugFixed | ChatDPT/utils.py:133-139 | a slug passes every step of `slugify` unchanged |
| Slug.SlugifyIdempotent | ChatDPT/utils.py:122-139 | slugifying a slug returns it unchanged |
| Slug.AsciiOnlyAppend | ChatDPT/utils.py:133-136 | the ASCII step distributes over concatenation, so every ASCII character is kept, in order |
| Slug.LowerAppend | ChatDPT/utils.py:138 | lower-casing distributes over concatenation |
| Slug.KeepSlugCharsAppend | ChatDPT/utils.py:138 | the deletion step distributes over concatenation, so every word character, whitespace and `-` is kept, in order |
| Slug.CollapseKeepsWords | ChatDPT/utils.py:139 | deleting the dashes from the collapsed text gives back every non-separator character of the input, in order |
| Slug.AlnumsKeptByFilter | ChatDPT/utils.py:138 | the deletion step keeps every lowercase letter and digit, in order |
| Slug.AlnumsKeptByCollapse | ChatDPT/utils.py:139 | the collapse keeps every lowercase letter and digit, in order |
| Slug.AlnumsKeptByStripLeft | ChatDPT/utils.py:139 | the leading strip keeps every lowercase letter and digit |
| Slug.AlnumsKeptByStripRight | ChatDPT/utils.py:139 | the trailing strip keeps every lowercase letter and digit |
| Slug.AlnumsKeptByStrip | ChatDPT/utils.py:139 | `strip("-_")` keeps every lowercase letter and digit |
| Slug.SlugifyKeepsAlnums | ChatDPT/utils.py:121-139 | every letter and digit of the ASCII part of the input reaches the slug, lower-cased and in order |
| Slug.SlugifyExample | ChatDPT/utils.py:121-139 | "A b!" slugifies to "a-b" |
| Slug.CollapseAppend | ChatDPT/utils.py:139 | the substitution works run by run: on a concatenation the second part is rewritten as if the scan had just read the first |
| Slug.CollapseRun | ChatDPT/utils.py:139 | a non-empty run of `-` and whitespace becomes exactly one `-` (nothing more inside a run already replaced) |
| Slug.SlugSurvivesFilters | ChatDPT/utils.py:133-138 | a slug passes the ASCII, lower-casing and deletion steps unchanged |
| Slug.SlugifyJoinsRun | ChatDPT/utils.py:121-139 | two non-empty slugs joined by any non-empty run of spaces or dashes slugify to the two slugs joined by a single `-` |
| ChatSession.Initialized | ChatDPT/app.py:21-35 | absent fields get `[]`, `0` and the gpt-4o chain at temperature 0; present fields are never overwritten |
| ChatSession.InitializedIdempotent | ChatDPT/app1.py:73-87 | initialising twice equals initialising once |
| ChatSession.SessionState.constructor | ChatDPT/app.py:21-26 | a fresh session has none of the three keys |
| ChatSession.SessionState.Initialize | ChatDPT/app.py:21-35 | the session's new state is the initialised snapshot of the old one, and alternation is kept |
| ChatSession.SessionState.OnClick | ChatDPT/app.py:37-44 | history gains exactly the human prompt then the AI reply after the unchanged old entries; the token count grows by exactly the callback's total |
| ChatSession.AppendExchangeAlternates | ChatDPT/app1.py:89-95 | one exchange adds two entries, keeps the prefix and keeps human/ai alternation |
| ChatSession.AlternatingOrigins | ChatDPT/app.py:10-14 | every message of a session history has origin "human" or "ai" |
| ChatSession.Render | ChatDPT/app.py:58-66 | "ai" gives kkum.png, ai-bubble and icon-first; "human" gives tourist.png, human-bubble and message-first; any other origin gets tourist.png and human-bubble but icon-first; the bubble markup wraps the message |
| ChatSession.RenderIdentifiesOrigin | ChatDPT/app1.py:110-118 | for the two declared origins, bubble class, icon and column order each distinguish "ai" from "human" |
| ChatSession.BubbleHtml | ChatDPT/app.py:67 | the markup `<div class="chat-bubble {message_class}">{message}</div>` |
| ChatSession.BubbleHtmlHoldsMessage | ChatDPT/app.py:67 | the bubble markup holds the message text unchanged just before the closing `</div>` |
| ChatPrompt.Line | ChatDPT/app1.py:52 | the f-string `{i+1}. {question} (Response: {response})` followed by a newline |
| ChatPrompt.Body | ChatDPT/app1.py:51-52 | the lines of the first n zipped pairs, in order |
| ChatPrompt.Prompt | ChatDPT/app1.py:50-52 | the header followed by the lines of all pairs `zip` yields; `ChatPrompt.BuildPrompt` computes it |
| ChatPrompt.BuildPrompt | ChatDPT/app1.py:50-52 | the prompt loop yields the header followed by the numbered lines of the zipped pairs; the prompt starts with the header |
| ChatPrompt.AppendLine | ChatDPT/app1.py:51-52 | appending line i to the text for i pairs gives the text for i + 1 pairs |
| ChatPrompt.LineNewlines | ChatDPT/app1.py:52 | a line built from a question without a newline holds exactly one newline |
| ChatPrompt.LineShape | ChatDPT/app1.py:52 | a line starts with its 1-based number and ". " and ends with a newline |
| ChatPrompt.BodyLineCount | ChatDPT/app1.py:51-52 | after the header there are exactly as many lines as pairs |
| ChatPrompt.BodyPrefix | ChatDPT/app1.py:51-52 | the lines for the first k pairs come first, so lines are in question order |
| Text.NatToString | ChatDPT/app1.py:52 | `{i+1}` prints as a non-empty run of decimal digits without a leading zero |
| Text.ParseNatToString | ChatDPT/app1.py:52 | reading the printed number back gives the number, so distinct line numbers print differently (`Text.NatToStringInjective`) |
| Text.NatToStringInjective | ChatDPT/app1.py:52 | distinct numbers print differently |
| Text.IntToString | ChatDPT/app1.py:52 | `{response}` prints as decimal digits with a leading `-` for a negative number; the result is non-empty |
| Text.TenthsToString | daetrip_v0/app.py:60 | `{rating}` for a one-decimal rating given in tenths: whole part, `.`, tenths digit |
| SiteFilter.KnownSites | app.py:41-42 | a name is kept iff it was chosen and is in the catalog |
| SiteFilter.KnownSitesAppend | app.py:41-46 | the filter distributes over concatenation, so kept names keep their order |
| SiteFilter.KnownSitesAllKnown | app.py:41-42 | a choice of catalog names is kept whole and in order |
| SiteFilter.FilterMap | app.py:41-46 | one marker per chosen name the catalog holds, in choice order, built from the name and its entry |
| SiteFilter.FilterMapMatchesKnown | app.py:41-46 | one marker per kept name, marker i built from kept name i and its catalog entry |
| SiteFilter.AddKnownMarkers | daetrip_v0/app.py:56-61 | the loop appends exactly those markers and adds no line |
| SiteSelection.OptionsKnown | app.py:13-33 | the multiselect options are exactly the catalog keys |
| SiteSelection.SiteMarker | app.py:43-46 | `folium.Marker(location=[lat, lon], popup=site)` |
| SiteSelection.SelectionKept | app.py:13-42 | any selection from the options passes the membership test whole and in order |
| SiteSelection.RecommendRoute | app.py:36-46 | a new zoom-12 map at (36.3504, 127.3845) with one marker per known selected site, in order |
| SiteSelection.SelectionMarkers | app.py:41-46 | marker i is at the catalog lat/lon of the i-th known selected site with its name as popup; a selection from the options gets one marker per site |
| DaeTripV0.FetchSitesData | daetrip_v0/app.py:10-17 | the catalog has exactly Site A, B and C |
| DaeTripV0.FetchIgnoresPreferences | daetrip_v0/app.py:10-17 | the catalog is the same whatever preferences are passed |
| DaeTripV0.SiteOptionsAreKeys | daetrip_v0/app.py:42 | the multiselect options are exactly the catalog keys |
| DaeTripV0.GenerateRouteRecommendations | daetrip_v0/app.py:20-23 | the placeholder recommender: the route is the selection |
| DaeTripV0.RouteIsSelection | daetrip_v0/app.py:20-23 | the recommended route is the selection, whatever catalog, preferences, transport and time are given |
| DaeTripV0.GetUserReviews | daetrip_v0/app.py:26-33 | three reviews, about Site A, B and C in that order |
| DaeTripV0.ReviewsNameKnownSites | daetrip_v0/app.py:26-33 | every review is about a catalog site |
| DaeTripV0.Popup | daetrip_v0/app.py:60 | the popup f-string: bold site name, description, then the rating |
| DaeTripV0.SiteMarker | daetrip_v0/app.py:58-61 | `folium.Marker` at the site's lat/lon with the rating popup |
| DaeTripV0.PopupParts | daetrip_v0/app.py:60 | the popup holds the site name in bold, then the description, and ends with the rating |
| DaeTripV0.CatalogRatingsText | daetrip_v0/app.py:60 | the ratings print as 4.5, 4.2 and 4.8 |
| DaeTripV0.MapCenter | daetrip_v0/app.py:52 | the centre is the first selected site's lat/lon; there is none iff the selection is empty or its first name is unknown |
| DaeTripV0.RecommendRoute | daetrip_v0/app.py:47-61 | fails iff there is no centre; otherwise a new zoom-13 map at that centre with one marker per known route site, in route order |
| DaeTripV0.RouteMarkers | daetrip_v0/app.py:56-61 | marker i is at the i-th known route site's coordinates with that site's popup; a selection from the options loses no site |

## Left out

- The Unicode normalisation of `slugify` (NFKD, then ASCII encoding with `ignore`) is not modelled beyond dropping non-ASCII characters. The `allow_unicode=True` branch is left out too. `Slug.Slugify` takes the string after normalisation. The idempotence lemma holds because ASCII text is unchanged by normalisation.
- Binary floating point is left out. This covers the exact result of `round(x, 1)`, float error inside the weighted sum, and float rounding in the centroid and in the bounding-box midpoint. Weights are exact hundredths and coordinates are reals.
- The map drawing itself is left out: prettymapp `get_aoi`, `get_osm_geometries`, `Plot`, matplotlib figures, `folium_static`, the pin map's display and every Streamlit widget. The scripts only build values for these, and the model keeps those values.
- osmnx `graph_from_bbox`, `nearest_nodes` and networkx `shortest_path` are parameters of `RouteMap.RoadGraph`, not implementations. The "No path found" message printed on a skipped segment is left out.
- `ConversationChain.invoke`, `ChatOpenAI`, the summary memory and `get_openai_callback` are left out. The reply and `total_tokens` are inputs, and the chain is reduced to its temperature and model name.
- `load_css`, `plt_to_svg`, `svg_to_html`, `plt_to_href`, `gdf_to_bytesio_geojson` and `st_get_osm_geometries` are file, figure or base64 I/O. The embedded JavaScript key handler is left out too.
- DaeTRIP/send_ktalk.py is not part of this model. It is network messaging only.
- StyleColors.ColorsFromStyle: the result is a map, so the insertion order of the returned dict is not modelled. `STYLES[style]` is passed in as the table.
- DaeTripV1.CenterCoordinates: requires a non-empty list of catalog names. The source only calls it on the three fixed lists, which `DaeTripV1.SpotListsResolve` shows are such lists. An empty list would divide by zero there.
- Geo.CentroidOrderIndependent: order independence is stated for the list of coordinates, not for the list of names.
- ChatSession.SessionState.OnClick: requires an initialised session. The page calls `initialize_session_state` before the form can trigger the callback.
- ChatPrompt.BodyLineCount: the one-line-per-question count requires questions without a newline. The seven survey questions contain none, but the model does not prove this for the literals.
- DaeTripV0.RecommendRoute: the `IndexError` on an empty selection and the `KeyError` on an unknown first name are both a `null` result. The exception itself is not modelled.
- The `user`/`site`/`review` lines written for each review, and the other `st.write` output, are display only.
- `prettymapp/app.py:103` calls `st_plot_all(_df=df, **config)` without `recommended_sites`. The `st_plot_all` at `ChatDPT/utils.py:38` requires that argument, so bound to that definition the call raises `TypeError`. The `utils` module that `prettymapp/app.py:7` imports is not part of this model, so that plotting call is not modelled.
