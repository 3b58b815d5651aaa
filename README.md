# A model of the player front end

This project models the logic of a small podcast front end, a Next.js and
React site. The site lists the talks of one category of a WordPress site and
plays them. The model covers these parts:

- The home page (`Home`): the word search and the favourites filter of
  `useFilteredPosts`; the cap on how many entries are rendered; and the two
  computations of `getStaticProps`. One is the page requests that fetch every
  post. The other is the audio path taken out of each post's excerpt.
- The entry of the episode list (`AudioListing`): the favourite toggle, the
  load effect, the remaining-time label and the selection of an entry.
- The three players (`MainPlayer`, `PlayerCard`, `InlinePlayer`).
  `MainPlayer` and `InlinePlayer` save a `{ currentTime, duration }` record
  under `"<id>-progress"` and `"<src>-progress"` respectively and restore it.
  `PlayerCard` only reads the record a player wrote, and it is the one that
  shows the remaining time. `InlinePlayer` shows the position and the
  duration. The main player opens and closes.
- The header (`Header`): search tokenisation, the category select, the
  number-of-posts input and the scroll state that shrinks or hides the
  header.
- The `useLocalStorage` hook (`LocalStorageHook`).
- The `Duration` and `Icon` components.

Shared modules hold the runtime the components rely on:

- `BrowserStorage`: local storage, a map from string keys to string values.
- `JsonText`: JSON text, with `JSON.stringify` and `JSON.parse` written out.
  The parse of the serialised text is proved to give the value back. This
  module also holds property reads and the numeric conversion of a read
  property.
- `Numbers`: JavaScript numbers in the integer domain the site uses. A
  number is an integer or `NaN`.
- `JsText`: the string built-ins.
- `JsArray`: `filter`.

React state is modelled as fields of a class. An effect or an event handler
is a method, and its contract states the new state and the new storage. An
exception stops the handler where it is thrown, and its error comes back as
the method's result. What the handler assigned before the throw stays
assigned.

## Model

| member | source | states |
|---|---|---|
| JsText.NatToDecimal | components/MainPlayer/Duration.tsx:16-18 | the numeral of a natural is a non-empty run of digits, and it has a leading zero only for 0 |
| JsText.DecimalRoundTrip | components/MainPlayer/Duration.tsx:16-18 | reading the digits of `String(n)` back gives `n` |
| JsText.IntToDecimal | components/AudioListing/AudioListing.tsx:122 | `String(n)` starts with a minus sign exactly for negative `n`, and is all digits otherwise |
| JsText.TrimStart | components/Header/Header.tsx:116 | the result is a suffix that does not start with white space, and everything removed is white space |
| JsText.TrimEnd | components/Header/Header.tsx:116 | the result is a prefix that does not end with white space, and everything removed is white space |
| JsText.TrimEnds | components/Header/Header.tsx:116 | a trimmed string is empty or starts and ends with a character that is not white space |
| JsText.TrimEmpty | components/Header/Header.tsx:116 | trimming leaves nothing exactly when the input is all white space |
| JsText.Trim | components/Header/Header.tsx:116 | the trimmed string is a block of the input with only white space before and after it |
| JsText.Split | components/Header/Header.tsx:117 | `split` gives at least one piece, and no piece contains the separator |
| JsText.JoinSplit | components/Header/Header.tsx:117 | joining the pieces of a split with the separator gives the input back |
| JsText.Join | components/Icon/Icon.tsx:61-66 | joining no parts gives the empty string, and one part is written without a separator |
| JsText.JoinEnds | components/Header/Header.tsx:117 | a join of at least one part starts with the first part and ends with the last |
| JsText.Includes | pages/index.tsx:44 | every string includes the empty string and each of its prefixes, and nothing longer than itself |
| JsText.Lower | pages/index.tsx:39 | lowercasing keeps the length and lowercases each character |
| JsText.PadStart | components/AudioListing/AudioListing.tsx:122 | the padded string has the requested width, ends with the input and is filled in front |
| Numbers.Sub | components/AudioListing/AudioListing.tsx:54 | a difference is finite exactly when both sides are, and then adding back the right side gives the left |
| Numbers.FloorDiv | components/AudioListing/AudioListing.tsx:55 | `Math.floor(a / d)` is the `q` with `d*q <= a < d*q + d` |
| Numbers.Rem | components/AudioListing/AudioListing.tsx:56 | the remainder takes the sign of the dividend, is smaller than the divisor in size, and differs from the dividend by a multiple of the divisor; NaN in gives NaN out |
| Numbers.MultipleOfDivisor | components/AudioListing/AudioListing.tsx:56 | a natural and its remainder differ by a multiple of the divisor |
| Numbers.StringToNumber | components/Header/Header.tsx:127 | white space alone (or nothing) is 0; a finite result comes from a trimmed string whose characters after the first are digits, and a negative one from a string starting with `-` |
| Numbers.NumberToString | components/Player.tsx:53-55 | `String(x)` is `"NaN"` exactly for NaN, and a finite number is written non-empty, with a leading `-` exactly when it is negative |
| Numbers.NumberToStringRoundTrip | components/Player.tsx:53-55 | `Number(String(x))` is `x`, NaN included |
| Numbers.StringToNumberOfDecimal | components/Header/Header.tsx:127 | `Number(String(n))` is `n` |
| JsonText.SkipWs | lib/localStorage.ts:21 | skipping JSON white space leaves text no longer than the input that does not start with white space |
| JsonText.SkipWsBlank | lib/localStorage.ts:21 | what is skipped is a prefix of the input made only of JSON white space |
| JsonText.ParseSerialise | lib/localStorage.ts:21-34 | `JSON.parse(JSON.stringify(v))` gives `v` back, for every value |
| JsonText.Serialise | lib/localStorage.ts:34 | the text of every value is non-empty, and its first character tells which kind of value it is |
| JsonText.Parse | lib/localStorage.ts:21 | text that is empty or blank, or whose first non-blank character cannot start a JSON value, is a SyntaxError |
| JsonText.ValueRoundTrip | lib/localStorage.ts:21-34 | the parser reads a serialised value back and leaves the text that follows it |
| JsonText.StringRoundTrip | lib/localStorage.ts:21-34 | an escaped string body is read back up to its closing quote |
| JsonText.ItemsRoundTrip | lib/localStorage.ts:21-34 | the elements of a serialised array are read back in order |
| JsonText.MembersRoundTrip | lib/localStorage.ts:21-34 | the members of a serialised object are read back in order |
| JsonText.LastMember | components/Player/Player.tsx:40 | a property is found exactly when some member has that name |
| JsonText.LastMemberIsLast | components/Player/Player.tsx:40 | the property found is the value of the last member with that name |
| JsonText.GetProp | components/MainPlayer/MainPlayer.tsx:40 | reading a property fails exactly on `null`; on an object it gives the last member of that name, or undefined when there is none; on any other value it gives undefined |
| JsonText.ToNumber | components/Player/Player.tsx:40-42 | a JSON number converts to itself and a string as `Number(s)`; a finite result never comes from undefined, an object or an array of two or more elements |
| JsonText.ArrayToNumber | components/Player/Player.tsx:40-42 | the empty array converts to 0 and a one-element array of a number to that number; arrays of two or more elements never give a finite number |
| JsonText.LooseNotZero | components/Player/Player.tsx:55 | undefined, null and arrays of two or more elements are `!= 0`; a number exactly when it is not 0; a string exactly when `Number(s)` is not 0 |
| JsArray.Filter | pages/index.tsx:38-47 | `filter` keeps only elements that pass, every element that passes is kept, and never more elements than it was given |
| JsArray.FilterAppend | components/AudioListing/AudioListing.tsx:66-69 | filtering a concatenation filters each part, in order |
| JsArray.FilterAll | pages/index.tsx:44 | when every element passes, the whole sequence is kept |
| JsArray.FilterNone | pages/index.tsx:41 | when no element of the input passes, nothing is kept |
| JsArray.FilterIdempotent | components/AudioListing/AudioListing.tsx:66 | filtering a second time by the same test changes nothing |
| JsArray.FilterSubsequence | pages/index.tsx:38 | what a filter keeps is a subsequence of its input, in the original order |
| JsArray.FilterEquivalent | pages/index.tsx:42-45 | two tests that agree on every element keep the same elements |
| JsArray.FilterFilter | pages/index.tsx:42-45 | filtering by one test and then another is one filter by their conjunction |
| BrowserStorage.GetItem | components/MainPlayer/MainPlayer.tsx:38 | `getItem` finds a value exactly for a stored key, and it is the stored one |
| BrowserStorage.Storage.SetItem | components/MainPlayer/MainPlayer.tsx:72-75 | `setItem` changes the one key and nothing else |
| BrowserStorage.Truthy | components/MainPlayer/MainPlayer.tsx:39 | a string or `null` in a condition is truthy exactly when it is a non-empty string |
| AppContext.SelectItem | components/AudioListing/AudioListing.tsx:93-96 | the selected item is replaced and every other context field is kept |
| LocalStorageHook.InitialValue | lib/localStorage.ts:16-26 | the state starts from the parsed stored text when the hook is enabled and the key holds text that parses; otherwise it starts from `initialValue`, and a parse failure is swallowed |
| LocalStorageHook.ReloadAfterWrite | lib/localStorage.ts:19-35 | after a value is written, a new mount of the hook starts from that value |
| LocalStorageHook.PersistedState.constructor | lib/localStorage.ts:19-26 | the cell starts from `InitialValue` |
| LocalStorageHook.PersistedState.SetValue | lib/localStorage.ts:28-39 | the new value, or the updater applied to the rendered value, becomes the state; when enabled its JSON is written under `key`; no other key changes; an updater that throws changes nothing |
| LocalStorageHook.ValueToStore | lib/localStorage.ts:30-31 | a plain value is stored as given, and an updater is applied to the current value |
| LocalStorageHook.PersistedState.Rerender | lib/localStorage.ts:30-31 | after a render, the setter sees the current state |
| LocalStorageHook.UseLocalStorage | lib/localStorage.ts:6-26 | a key that is not a string is an error before storage is read; otherwise the cell starts from `InitialValue` |
| Duration.UtcMinutes | components/MainPlayer/Duration.tsx:10-11 | the UTC minutes are NaN exactly for an invalid date, and otherwise are the whole minutes of the time modulo one hour, in 0..59 |
| Duration.UtcSeconds | components/MainPlayer/Duration.tsx:10-12 | the UTC seconds are NaN exactly for an invalid date, and otherwise lie in 0..59 and differ from the time by whole minutes |
| Duration.DateTimeAttr | components/MainPlayer/Duration.tsx:21 | the attribute is `P`, the seconds, then `S` |
| Duration.Pad | components/MainPlayer/Duration.tsx:16-18 | a natural is written as at least two digits that read back as the value, exactly two below 100; a negative value gets a `0` in front of its minus sign; NaN is `NaN` |
| Duration.Format | components/MainPlayer/Duration.tsx:9-14 | a valid time is written as five characters: two digits, a colon, two digits; an invalid one as `NaN:NaN` |
| Duration.FormatReadBack | components/MainPlayer/Duration.tsx:9-14 | `mm` reads back as the minutes of the hour and `ss` as the seconds of the minute, and `60*mm + ss` is the time modulo 3600, for negative times too |
| Duration.HourSplit | components/MainPlayer/Duration.tsx:10-12 | minutes of the hour times 60 plus seconds of the minute is the time modulo one hour |
| Duration.FormatDropsHours | components/MainPlayer/Duration.tsx:10-13 | a time one hour later is written the same |
| Header.Boolean | components/Header/Header.tsx:117 | `Boolean` as a test on strings rejects exactly the empty string |
| Header.SearchTerms | components/Header/Header.tsx:115-117 | no search term is empty or contains a space |
| Header.Without | components/Header/Header.tsx:117 | the result contains no occurrence of the removed character |
| Header.ConcatSplit | components/Header/Header.tsx:117 | the pieces of a split, concatenated, are the input with the separators deleted |
| Header.ConcatDropsEmpty | components/Header/Header.tsx:117 | dropping empty pieces does not change their concatenation |
| Header.SearchTermsConcat | components/Header/Header.tsx:116-117 | the terms, concatenated in order, are the trimmed input with its spaces deleted |
| Header.SearchTermsBlank | components/Header/Header.tsx:116-117 | the search gives no terms exactly when the input is all white space |
| Header.CategorySelection | components/Header/Header.tsx:125-127 | the selection has at most one id; it is empty exactly for `"all"`, and otherwise it is `[Number(value)]` |
| Header.CategoryOptionRoundTrip | components/Header/Header.tsx:185-187 | choosing the option of category `id` gives `[id]` |
| Header.NumberOfPostsInput | components/Header/Header.tsx:44-48 | a typed numeral gives its value, and a cleared input gives 0 |
| Header.NumberOfPostsChange | components/Header/Header.tsx:44-48 | a numeral typed into the input is read as its value, and a cleared input as 0 |
| Header.ScrollState.constructor | components/Header/Header.tsx:39-41 | the header starts neither shrunk nor hidden, and the listener starts from the current position |
| Header.NotAtBottom | components/Header/Header.tsx:80-82 | more than 50 pixels of the page remain below the bottom of the viewport |
| Header.ScrollState.HandleScroll | components/Header/Header.tsx:75-98 | away from the bottom, the header is shrunk past one height and hidden past five heights when moving down; near the bottom both flags stay; the position is always remembered; a hidden header is always shrunk |
| Header.ScrollState.Resize | components/Header/Header.tsx:50-60 | the measured height replaces the old one; when it differs, the new listener starts from the current position; the flags stay |
| Icon.ViewBox | components/Icon/Icon.tsx:35-45 | the viewBox for each icon name |
| Icon.IconClassName | components/Icon/Icon.tsx:42-44 | only Spinner appends ` animate-spin` to the class name |
| Icon.SizeClass | components/Icon/Icon.tsx:53-57 | a non-empty custom size wins; otherwise `sm` gives `h-8 w-8` and `md` gives `h-10 w-10` |
| Icon.ColourClass | components/Icon/Icon.tsx:61-66 | `active` picks the custom active colour and `default` the custom default colour |
| Icon.Render | components/Icon/Icon.tsx:26-66 | the outer class is the class name, `relative` and the size class with single spaces; the svg class is `h-auto w-full` and the colour class; the viewBox is the one of the name; medium and `default` stand in for props left out |
| Icon.JoinTwo | components/Icon/Icon.tsx:61-66 | `[a, b].join(" ")` is `a`, a space and `b` |
| Icon.RenderDefaults | components/Icon/Icon.tsx:26-33 | with every optional prop left out, the icon is medium and takes the default colour `fill-blue-100` |
| PlayerProgress.TimeRecord | components/MainPlayer/MainPlayer.tsx:71-75 | the record a time update writes is an object whose `currentTime` and `duration` read back as the given values |
| PlayerProgress.InitialProgress | components/MainPlayer/MainPlayer.tsx:23-26 | the initial progress is an object whose position field and `duration` both read as 0 |
| PlayerProgress.ProgressKey | components/MainPlayer/MainPlayer.tsx:38 | the key is the id followed by `-progress` |
| PlayerProgress.StoredProgress | components/AudioListing/AudioListing.tsx:41-50 | nothing is found when the item is absent or empty; a SyntaxError exactly when the text does not parse; otherwise the parsed record |
| PlayerProgress.RestoredRecord | components/MainPlayer/MainPlayer.tsx:38-41 | the parsed record and its `currentTime`; a stored `null` throws a TypeError when destructured |
| PlayerProgress.SeekTarget | components/MainPlayer/MainPlayer.tsx:42-44 | a position is set exactly when it converts to a finite number; otherwise a TypeError |
| PlayerProgress.StoredAfterWrite | components/MainPlayer/MainPlayer.tsx:38-40 | any value written under a key is what the next read of that key parses back |
| PlayerProgress.RestoreAfterWrite | components/MainPlayer/MainPlayer.tsx:37-75 | a record written under a key is what the next restore finds, with its `currentTime` |
| PlayerProgress.RestoreWithoutRecord | components/MainPlayer/MainPlayer.tsx:38-39 | with nothing stored there is nothing to restore |
| PlayerProgress.RemainingLabel | components/Player/Player.tsx:40-42 | the label fails exactly when the progress is `null` |
| PlayerProgress.ProgressVisible | components/Player/Player.tsx:55 | the visibility test fails exactly when the progress is `null` |
| PlayerProgress.PaddedSeconds | components/Player/Player.tsx:63 | seconds below 60 are padded to two digits that read back as the value |
| PlayerProgress.RemainingOfRecord | components/Player/Player.tsx:40-42 | the label of a stored record is the label of `duration - currentTime` |
| PlayerProgress.LabelText | components/Player/Player.tsx:40-42 | for a remaining time `r >= 0` the label shows `r / 60` minutes and two digits of seconds, and `60 * minutes + seconds` is `r`; a negative time shows `Math.floor(r / 60)` minutes and the remainder truncated towards zero (`"00"` or a minus sign and its size), so it starts with `-`; NaN gives `NaNm NaNs left` |
| PlayerProgress.NegativeLabelExample | components/Player/Player.tsx:40-42 | a remaining time of -90 is labelled `-2m -30s left` |
| PlayerProgress.VisibleOfRecord | components/Player/Player.tsx:55 | a record's progress is shown exactly when `currentTime` is not 0, and the initial state shows none |
| AudioListing.ReadFavorites | components/AudioListing/AudioListing.tsx:59-61 | a missing or empty item reads as `[]`; otherwise the parsed list, or a SyntaxError exactly when the text does not parse |
| AudioListing.FavoriteFlag | components/AudioListing/AudioListing.tsx:42-46 | nothing stored is not a favourite; the flag is found exactly when the stored text parses to an array or a string, and for an array it is the membership of the id; a SyntaxError exactly when the text does not parse, a TypeError otherwise |
| AudioListing.EmptyListParses | components/AudioListing/AudioListing.tsx:60 | `JSON.parse("[]")` is the empty array |
| AudioListing.IncludesId | components/AudioListing/AudioListing.tsx:63 | `includes` on an array tests membership of the id; only arrays and strings have `includes`, and anything else is a TypeError |
| AudioListing.Toggled | components/AudioListing/AudioListing.tsx:65-71 | toggling flips whether the id is in the list and keeps the membership of every other value |
| AudioListing.NotId | components/AudioListing/AudioListing.tsx:66 | the test `item !== id` rejects exactly the id |
| AudioListing.ToggledKeepsOthers | components/AudioListing/AudioListing.tsx:66-69 | apart from the toggled id, the list is the same before and after, in the same order |
| AudioListing.ToggledTwice | components/AudioListing/AudioListing.tsx:65-71 | toggling twice restores membership; a new id leaves the list as it was, and a present one moves to the end |
| AudioListing.ToggleOutcome | components/AudioListing/AudioListing.tsx:58-75 | the toggle succeeds exactly when the stored text parses to an array; the list written is the toggled list and the flag is the id's new membership |
| AudioListing.ToggleThenLoad | components/AudioListing/AudioListing.tsx:40-75 | after a toggle, the next load shows the new flag |
| AudioListing.ToggleTwiceRestores | components/AudioListing/AudioListing.tsx:58-75 | a second toggle after the first was stored gives back the original membership |
| AudioListing.ListingMisreadsPlayerRecord | components/AudioListing/AudioListing.tsx:54-56 | for a record the players wrote, the entry shows its progress block with `NaNm NaNs left`, whatever the position |
| AudioListing.RemainingText | components/AudioListing/AudioListing.tsx:54-56 | the entry's label is `PlayerProgress.RemainingLabel` with the field `playedSeconds`; it fails exactly when the progress is `null` |
| AudioListing.ShowsProgress | components/AudioListing/AudioListing.tsx:103 | the entry's test is `PlayerProgress.ProgressVisible` with the field `playedSeconds`; it fails exactly on `null`, and an object without `playedSeconds` shows the block |
| AudioListing.CorrectedRemainingText | components/AudioListing/AudioListing.tsx:54-56 | `PlayerProgress.RemainingLabel` with the field `currentTime`; it fails exactly when the progress is `null` |
| AudioListing.CorrectedShowsProgress | components/AudioListing/AudioListing.tsx:103 | `PlayerProgress.ProgressVisible` with the field `currentTime`; it fails exactly on `null`, and a position of 0 hides the block |
| AudioListing.CorrectedListingReadsRecord | components/AudioListing/AudioListing.tsx:54-56 | read with `currentTime`, a record shows the label of `duration - currentTime`, and shows it only when the position is not 0 |
| AudioListing.Listing.constructor | components/AudioListing/AudioListing.tsx:28-32 | the entry starts with the progress `{ playedSeconds: 0, duration: 0 }`, not a favourite |
| AudioListing.Listing.ToggleFavorite | components/AudioListing/AudioListing.tsx:58-76 | on success only `favoriteItems` is written; the callback is told exactly when it is a function; the flag becomes the negation of the old membership; an error changes nothing |
| AudioListing.Listing.Load | components/AudioListing/AudioListing.tsx:40-52 | the flag is the membership of the id in the stored list; a stored record replaces the progress; a bad list stops everything and a bad record stops after the flag |
| AudioListing.Listing.Select | components/AudioListing/AudioListing.tsx:91-97 | a click selects this entry's title, date, src and id and keeps the rest of the context |
| MainPlayer.Player.constructor | components/MainPlayer/MainPlayer.tsx:22-29 | the player starts closed with the progress `{ currentTime: 0, duration: 0 }` |
| MainPlayer.Player.HandleTimeUpdate | components/MainPlayer/MainPlayer.tsx:68-76 | the record of the position becomes the progress and is written under `"<id>-progress"`; no other key changes |
| MainPlayer.Player.RestoreProgress | components/MainPlayer/MainPlayer.tsx:37-46 | a stored record becomes the progress and its `currentTime` the position of the element; nothing stored changes nothing; each error case and what it leaves set |
| MainPlayer.Player.HandleOpen | components/MainPlayer/MainPlayer.tsx:48-50 | the player is open |
| MainPlayer.Player.HandleClose | components/MainPlayer/MainPlayer.tsx:52-57 | the player is closed and paused; the progress and storage stay |
| MainPlayer.Player.OpenOnSelection | components/MainPlayer/MainPlayer.tsx:59-66 | the player opens and plays exactly when the title and the source are both non-empty |
| MainPlayer.Player.Mount | components/MainPlayer/MainPlayer.tsx:37-66 | after the first render the restore runs with each of its outcomes: a read or parse error is returned and leaves the progress; nothing stored keeps the progress; a stored record becomes the progress and its `currentTime` the position of the element, or a TypeError when it is not a finite number; then, without an error, the player opens for a selection with a title and a source |
| MainPlayer.Player.ReceiveProps | components/MainPlayer/MainPlayer.tsx:37-66 | a new selection restores only when the source changed, with each outcome of the restore (its error returned, nothing stored keeping the progress, a record setting the progress and the position of the element); it opens only when the title or source changed and no error occurred |
| MainPlayer.TimeUpdateThenRestore | components/MainPlayer/MainPlayer.tsx:37-76 | a time update and then a restore give back the written record and its position |
| PlayerCard.Card.constructor | components/Player/Player.tsx:25-28 | the card starts with the progress `{ currentTime: 0, duration: 0 }` |
| PlayerCard.Card.Load | components/Player/Player.tsx:32-38 | a stored record replaces the progress and nothing stored keeps it; storage is never written |
| PlayerCard.Card.Click | components/Player/Player.tsx:44-50 | a click passes the card's item to `selectAudio` exactly when it is defined |
| PlayerCard.Card.RemainingText | components/Player/Player.tsx:40-42 | the card's label is `PlayerProgress.RemainingLabel` with the field `currentTime`; it fails exactly when the progress is `null` |
| PlayerCard.Card.ShowsProgress | components/Player/Player.tsx:55 | the card's test is `PlayerProgress.ProgressVisible` with the field `currentTime`; it fails exactly when the progress is `null` |
| PlayerCard.CardShowsRecord | components/Player/Player.tsx:40-55 | a card holding a record shows the label of its remaining time, and its bar exactly when the position is not 0 |
| PlayerCard.LoadPlayerRecord | components/Player/Player.tsx:32-64 | a card loading a record a player wrote shows its remaining time, and shows its bar exactly when the position is not 0 |
| InlinePlayer.DisplayedTimes | components/Player.tsx:53-55 | the displayed times fail exactly when the progress is `null` |
| InlinePlayer.DisplayOfRecord | components/Player.tsx:53-55 | a record shows its position and duration, and the initial state shows `0` twice |
| InlinePlayer.Player.Displayed | components/Player.tsx:53-55 | what the player shows is `InlinePlayer.DisplayedTimes` of its progress, which fails exactly when the progress is `null` |
| InlinePlayer.Player.constructor | components/Player.tsx:15-18 | the player starts with the progress `{ currentTime: 0, duration: 0 }` |
| InlinePlayer.Player.HandleTimeUpdate | components/Player.tsx:32-40 | the record becomes the progress and is written under `"<src>-progress"`; no other key changes |
| InlinePlayer.Player.RestoreProgress | components/Player.tsx:21-30 | a stored record becomes the progress and its `currentTime` the element's position; nothing stored changes nothing |
| InlinePlayer.Player.ReceiveSource | components/Player.tsx:21-30 | a restore runs only when the source changed, with each of its outcomes: its error returned, nothing stored keeping the progress, a record setting the progress and the position of the element |
| InlinePlayer.TimeUpdateThenRestore | components/Player.tsx:21-40 | a time update and then a restore give back the written record, its position and its display |
| Home.SearchWords | pages/index.tsx:134-136 | splitting a search value gives at least one word |
| Home.PostsMatching | pages/index.tsx:36-49 | a post is kept exactly when its lowercased title contains every lowercased word; no words keep nothing |
| Home.PostsMatchingInOrder | pages/index.tsx:38-47 | the matching posts keep their order |
| Home.ClearedSearchShowsAll | pages/index.tsx:132-137 | a cleared search box shows every post |
| Home.MoreWordsNarrow | pages/index.tsx:42-45 | more words narrow the result of the first ones (AND) |
| Home.SameWordsSameResult | pages/index.tsx:42-45 | only which words occur matters, not their order or repetition |
| Home.EmptyWordIgnored | pages/index.tsx:42-45 | an extra empty word, as a double space leaves, changes nothing |
| Home.FavoritePosts | pages/index.tsx:51-57 | with favourites, exactly the posts whose id is among them; with none, every post unchanged |
| Home.FavoritePostsInOrder | pages/index.tsx:53 | the favourite posts keep their order |
| Home.FilteredPosts.constructor | pages/index.tsx:34 | the filtered list starts as the full list |
| Home.FilteredPosts.FilterPosts | pages/index.tsx:36-49 | the search result is computed from the full list, whatever was shown before |
| Home.FilteredPosts.FilterFavorites | pages/index.tsx:51-61 | the favourites result is computed from the full list, whatever was shown before |
| Home.VisiblePosts | pages/index.tsx:142 | at most `numberOfPost` entries, a prefix of the list; NaN shows none, and a negative count counts from the end |
| Home.NumberInputCap | pages/index.tsx:99 | a typed count `n` shows the first `n` posts, and a cleared input shows none |
| Home.FirstOccurrence | pages/index.tsx:184-185 | the first position where the pattern occurs, or none when it does not occur |
| Home.TakeUntil | pages/index.tsx:184 | the longest prefix without a quote |
| Home.StripUploadsPrefix | pages/index.tsx:186-191 | the result is a suffix of the url |
| Home.AudioUrl | pages/index.tsx:184-191 | an excerpt without `src="` gives the empty path |
| Home.StripPrefixed | pages/index.tsx:187-189 | every spelling of the prefix the pattern accepts is cut off whole |
| Home.RenderRecovers | pages/index.tsx:149 | putting the base back recovers every url that began with exactly the base |
| Home.StripWithoutSitePath | pages/index.tsx:186-191 | a url without the site path is left unchanged |
| Home.StripOtherHost | pages/index.tsx:186-191 | the site path behind another host is left unchanged |
| Home.FirstSrcAfter | pages/index.tsx:184 | the first `src="` of an excerpt is found right after the text before it that has none |
| Home.TakeUntilQuote | pages/index.tsx:184 | the match ends at the first quote after the url |
| Home.AudioUrlOfExcerpt | pages/index.tsx:183-191 | the path is the stripped text between the first `src="` and the next quote |
| Home.Ingest | pages/index.tsx:183-191 | the id, title and date of a post are kept, and an excerpt without `src="` gives the empty path |
| Home.RenderedSrc | pages/index.tsx:149 | the rendered `src` is the base url followed by the stored path |
| Home.IngestThenRender | pages/index.tsx:149 | an excerpt pointing at a file on the site, under any accepted prefix, is rendered with that file under the base url |
| Home.IngestWithoutSrc | pages/index.tsx:191 | an excerpt without `src="` is rendered with the bare base url |
| Home.RequestCount | pages/index.tsx:174 | the count is the ceiling of `total / 99`, and 0 for a count that is not positive |
| Home.PageRequests | pages/index.tsx:174-180 | `ceil(total/99)` requests at offsets `0, 99, 198, ...`; each offset is within the total, and every post falls in one requested page |

## How the filters combine

- `filterPosts` (pages/index.tsx:42-45) keeps a title only when it contains
  every word, so more words narrow the result. `Home.MoreWordsNarrow` states
  this.
- `filterPosts` and `filterFavorites` each start again from the full list of
  posts (pages/index.tsx:38, 53), so the later call replaces the earlier
  result instead of narrowing it. `Home.FilteredPosts` models this.
- `filterPosts` keeps nothing for an empty list of words
  (pages/index.tsx:41). The search box never produces one: splitting `""`
  gives `[""]`, and the empty word matches every title
  (`Home.ClearedSearchShowsAll`).

## Left out

- The `Home.FilteredPosts` state setter is called with the result directly;
  React's batching of state updates is not modelled.
- Network access: `getAllPostsFromServer` and `getCategoryCount` become
  parameters (the page requests and the fetched posts). lib/utils.ts is not
  part of this model. Neither is the LRU cache of `getStaticProps`,
  `Promise.all`, or the `flat` of the results.
- Timing: the `debounce` of the search and resize handlers, and the
  registration and cleanup of the scroll and resize listeners. The resize
  measurement is a parameter of `Header.ScrollState.Resize`.
- Floating point: media times, durations, counts and scroll positions
  (`scrollY`, `lastScrollY`, the header height) are whole numbers, and
  `Number` is an integer or NaN. Durations of `NaN` or `Infinity` before the
  media metadata loads, and the progress-bar percentage, are not modelled.
- `Number(s)` reads decimal integers only (with an optional sign and
  surrounding white space). Hexadecimal, exponents and fractions read as NaN.
- `toLowerCase` is ASCII lowercasing.
- The `typeof word === "string"` guard in `filterPosts` always holds for the
  words of a split, so it is left out.
- The favourites button and the favourites reset on search input
  (pages/index.tsx:81-83, 101-112, 133), and the favourites list the page reads from storage when it starts (pages/index.tsx:73-77), are not modelled; `FilterFavorites`
  takes the favourites list as a parameter.
- The random artwork choice, `toLocaleDateString`, `he.decode`, and the JSX
  and CSS class composition beyond `Icon`. The static SVG markup of
  components/Icon/getIcon.tsx is not part of this model.
- Media element behaviour beyond `currentTime` and `paused`: the promise
  `play()` returns, the clamping of a seek to the media length, and seeking
  a negative time.
- Error propagation in React: a thrown error is the method's result. The
  unmount of the tree that follows it, and `console.error`, are not modelled.
  The quota error `setItem` can throw is not modelled either.
- `window` being undefined during server rendering.
- The header's `min`/`max` input attributes, and `DEFAULT_NUMBER_OF_POSTS`
  in the header, only affect rendering.
- `JSON.stringify` of values JSON cannot represent (`undefined`, functions,
  `NaN`) is not modelled. JSON text numbers are integers: `Parse` rejects
  fractions and exponents.
- `Home.StripUploadsPrefix`: its own contract says only that the result is
  a suffix of the url. What it cuts is stated by `Home.StripPrefixed`,
  `Home.StripWithoutSitePath` and `Home.StripOtherHost`.
- `JsonText.SkipWs`: its own contract leaves out that what it skips is a
  blank prefix; `JsonText.SkipWsBlank` states that.
- `JsonText.LastMember`: its own contract says only when a property is
  found; `JsonText.LastMemberIsLast` states which member's value it is.
- `JsonText.Parse`: an object keeps every member in text order, duplicates
  included. A JavaScript object keeps one entry per name, with the last
  value at the first position, and lists integer-like names first. So
  `[{"a":1,"a":2}]` parses to an object with two members here, and its
  re-serialisation differs from `JSON.stringify(JSON.parse(...))`. Property
  reads agree, since they take the last member of the name.
- `JsonText.Parse`: a `\u` escape of a surrogate code unit is refused, so
  `"\ud83d\ude00"` is a SyntaxError here. The hook then falls back to its
  initial value where JavaScript would read the emoji.
- `AudioListing.Listing.ToggleFavorite`: the callback cannot throw. A
  throwing `favoriteCallback` (components/AudioListing/AudioListing.tsx:73-75)
  would leave the new list written to storage and the flag not flipped.

## Findings

| source | as written | input that shows it | evidently intended | confidence | as-written member | corrected member |
|---|---|---|---|---|---|---|
| components/AudioListing/AudioListing.tsx:16-19 | the entry reads its progress as `{ playedSeconds, duration }`, but the players write `{ currentTime, duration }` under the same `"<id>-progress"` key (components/MainPlayer/MainPlayer.tsx:71-75) | a stored `{"currentTime":30,"duration":600}` under `"7-progress"` makes entry 7 show its progress block with `NaNm NaNs left` | the entry reads `currentTime` and shows `9m 30s left` | not executed | AudioListing.ListingMisreadsPlayerRecord | AudioListing.CorrectedListingReadsRecord |
