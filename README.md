# Kunphen Tibetan Medicine website: a verified model of its rules

This Dafny project models the rules of the Kunphen clinic website that have exact behaviour. None of it is page layout:

- **The chat proxy** (`/api/ai-chat`). It validates and trims the visitor's message and sanitises the untrusted history the browser sends. That means a shape filter, then the last 12 entries, then each content cut to 1000 characters. It then builds the message list for the completion service (system turn, history, new user turn) and turns the service's outcome into a 200 reply, a 400 or one of two 500 errors. The completion service is a function parameter.
- **The chat widget** (`AIAssistantChat`). It is a class with the panel flag, the loading flag, the input text and the transcript. Sending is split into the step before the network call (`BeginSend`) and the step after it (`CompleteSend`). The transcript invariant is proved: the greeting, then alternating user and assistant turns, with loading exactly when a reply is awaited.
- **The client function** (`sendAssistantMessage`). The model covers the POST it builds and its decision on `response.ok` and `data.reply`; the network exchange is an input.
- **The home-page slider and the gallery lightbox.** Both are wrap-around index arithmetic, written with JavaScript's truncating `%`. Each is a class whose methods keep the index in range.
- **The articles filter.** It combines a category match with a case-insensitive substring search.
- **The practitioner cards.** A description longer than 180 characters is shown cut to 180 characters plus "…" until it is expanded.

The module `EndToEnd` joins the widget, the client and the proxy. It shows what the completion service receives when the widget sends a message.

JavaScript's `trim` is modelled over the exact ECMAScript whitespace and line-terminator set (`Text.IsJsWhitespace`). `toLowerCase` is modelled over ASCII letters; `includes` is a left-to-right scan proved equal to "occurs at some index".

The widget takes its 12-message history window after it has appended the new user turn (src/components/AIAssistantChat.tsx:29-35). The proxy then appends the same message as its own user turn (server/ai-chat-server.mjs:57). So the completion service receives the visitor's message twice in a row, as `EndToEnd.WidgetMessageReachesServiceTwice` proves for a message of at most 1000 characters. A longer message arrives first cut to its first 1000 characters (the history copy, server/ai-chat-server.mjs:49) and then in full.

The first article's excerpt is kept character for character as the page holds it. The em dash appears as the three characters "â€”", the UTF-8 bytes of the dash read as Windows-1252.

## Model

| member | source | states |
|---|---|---|
| Text.Trim | server/ai-chat-server.mjs:39 | `trim` leaves no whitespace at either end, removes only whitespace around a piece of the input, and is empty exactly when the input is all whitespace |
| Text.TrimUnique | server/ai-chat-server.mjs:39 | any whitespace-free-ended piece surrounded only by whitespace is what `trim` returns |
| Text.TrimIdempotent | src/components/AIAssistantChat.tsx:26 | trimming twice is trimming once |
| Text.Lower | src/pages/Articles.tsx:59 | `toLowerCase` keeps the length and maps each ASCII capital to its lowercase letter, leaving every other character as it is |
| Text.ContainsIff | src/pages/Articles.tsx:59 | `includes` is true exactly when the searched text occurs at some index |
| Messages.HistoryToJson | src/lib/aiAssistant.ts:20-23 | the history array holds, in order, one `{role, content}` object per message |
| ChatServer.IsHistoryEntry | server/ai-chat-server.mjs:47 | an entry passes the shape filter exactly when it is truthy, its `role` is "user" or "assistant" and its `content` is a string |
| ChatServer.RequestMessage | server/ai-chat-server.mjs:39 | a string `message` gives its trim and anything else gives ""; the result is non-empty exactly when `message` is a string with a non-whitespace character |
| ChatServer.RequestHistory | server/ai-chat-server.mjs:40 | an array `history` is passed through as it is; a missing or non-array one gives the empty history |
| ChatServer.NonArrayHistoryIsEmpty | server/ai-chat-server.mjs:40 | a request whose history is absent or not an array is handled exactly like one with `history: []` |
| ChatServer.SanitizedEntry | server/ai-chat-server.mjs:49 | a kept entry keeps its role, and its content is the first min(n, 1000) characters of the original content |
| ChatServer.SafeHistory | server/ai-chat-server.mjs:46-49 | the sanitised history has at most 12 entries, each a user or assistant turn of at most 1000 characters |
| ChatServer.SafeHistoryIsLastKept | server/ai-chat-server.mjs:46-49 | the sanitised history is the truncation of exactly the last min(12, n) of the n entries that pass the shape filter, in their original order |
| ChatServer.SafeHistoryDropsMalformed | server/ai-chat-server.mjs:47 | an entry that fails the shape filter (e.g. role "system") is silently dropped wherever it stands, and the remaining entries are kept |
| ChatServer.SafeHistoryFilterFirst | server/ai-chat-server.mjs:46-48 | the cap of 12 applies after the filter: pre-filtering the history changes nothing, so dropped entries never count towards 12 |
| ChatServer.SystemEntryDropped | server/ai-chat-server.mjs:47 | a lone `{role: "system"}` entry gives an empty sanitised history |
| ChatServer.Truncated | server/ai-chat-server.mjs:49 | truncation keeps the role and yields the prefix of length min(n, 1000) of the content, so a short message is unchanged |
| ChatServer.SafeHistoryOfConversation | server/ai-chat-server.mjs:46-49 | a history of user and assistant turns, serialised as the browser sends it, sanitises to its last 12 turns, each truncated |
| ChatServer.SafeHistoryIdempotent | server/ai-chat-server.mjs:46-49 | sanitising an already sanitised history, sent again, returns it unchanged |
| ChatServer.OutboundMessages | server/ai-chat-server.mjs:54-58 | the outbound list has length \|history\| + 2: the system prompt first, then the history in order, then the user message last |
| ChatServer.Classify | server/ai-chat-server.mjs:61-70 | 200 with the trimmed first-choice content exactly when it has a non-whitespace character; otherwise 500 "Empty model response."; a thrown call gives 500 "Failed to get AI response." |
| ChatServer.Handle | server/ai-chat-server.mjs:37-71 | the completion service is called exactly when the message has non-whitespace text |
| ChatServer.HandleRejectsBlankMessage | server/ai-chat-server.mjs:39-44 | a missing, non-string or blank message yields 400 "Message is required.", whatever the service would answer, and the service is not called |
| ChatServer.HandleForwards | server/ai-chat-server.mjs:46-61 | with a message, the service receives the system turn, the sanitised history and the trimmed message, and the response is the classification of its answer |
| ChatServer.OutboundHasOneSystemTurn | server/ai-chat-server.mjs:46-58 | the outbound list has between 2 and 14 messages, and only its first has the system role |
| ChatServer.HandleResponses | server/ai-chat-server.mjs:37-71 | every response is 200 with a non-empty trimmed reply, 400 "Message is required.", or 500 with one of the two fixed texts; no upstream detail is passed on |
| ChatClient.ApiUrl | src/lib/aiAssistant.ts:12 | an unset or empty setting gives "/api/ai-chat"; otherwise the configured URL |
| ChatClient.AssistantRequest | src/lib/aiAssistant.ts:14-24 | the request is a JSON POST to the configured URL whose body has exactly `message` and `history`, carried exactly as passed in |
| ChatClient.ErrorText | src/lib/aiAssistant.ts:26-33 | the two thrown errors carry "AI assistant is currently unavailable." and "Invalid AI response." |
| Json.Truthy | src/lib/aiAssistant.ts:31 | a value is falsy exactly when it is undefined, `null`, `false`, 0 or the empty string |
| ChatClient.Interpret | src/lib/aiAssistant.ts:26-35 | a non-ok response fails as unavailable; a rejected fetch, an unparsable body, or an ok response whose body is `null` fails with the runtime error passed on; any other ok body whose `reply` is missing or falsy fails as invalid; otherwise the result is `data.reply` unmodified |
| ChatClient.NullBodyIsNotInvalid | src/lib/aiAssistant.ts:30-33 | reading `reply` off a `null` body throws its own error rather than "Invalid AI response.", which an object without `reply` gets |
| ChatClient.ResponseJson | server/ai-chat-server.mjs:42-70 | a reply body has `reply`; an error body has `error` and no `reply` |
| ChatClient.InterpretsProxyResponse | src/lib/aiAssistant.ts:26-35 | whatever the proxy answers, the client returns the proxy's reply when the status is 200 and fails as unavailable otherwise |
| ChatWidget.CanSendIff | src/components/AIAssistantChat.tsx:23 | sending is enabled exactly when nothing is loading and the input has a non-whitespace character |
| ChatWidget.HistoryWindow | src/components/AIAssistantChat.tsx:35 | the window is the last min(12, n) messages of the transcript |
| ChatWidget.WindowEndsWithNewest | src/components/AIAssistantChat.tsx:29-35 | the window taken after the user turn is appended ends with that turn |
| ChatWidget.AssistantChat.constructor | src/components/AIAssistantChat.tsx:9-21 | the widget starts closed, not loading, with empty input and the transcript exactly the greeting |
| ChatWidget.AssistantChat.Open | src/components/AIAssistantChat.tsx:111 | the launcher sets `open`, changes nothing else, and keeps the transcript invariant |
| ChatWidget.AssistantChat.Close | src/components/AIAssistantChat.tsx:62 | the close button clears `open`, changes nothing else, and keeps the transcript invariant |
| ChatWidget.AssistantChat.SetInput | src/components/AIAssistantChat.tsx:92-93 | typing replaces the input, changes nothing else, and keeps the transcript invariant |
| ChatWidget.AssistantChat.BeginSend | src/components/AIAssistantChat.tsx:25-35 | a blank input or a pending reply changes nothing and sends nothing; otherwise exactly one trimmed user turn is appended, the input is cleared, loading starts, and the text is sent with the last 12 messages of the new transcript; the transcript invariant is kept |
| ChatWidget.AssistantChat.CompleteSend | src/components/AIAssistantChat.tsx:36-49 | exactly one assistant turn is appended (the reply on success, the fixed fallback text on failure), earlier turns are unchanged, and loading ends |
| ChatWidget.OnSend | src/components/AIAssistantChat.tsx:25-50 | a send run to completion adds exactly the trimmed user turn and its answer and leaves the panel as it was |
| EndToEnd.ServerReadsClientRequest | src/lib/aiAssistant.ts:20-23 | the proxy reads back from the client's body the message and the history the client put there |
| EndToEnd.WidgetRequestAtService | src/components/AIAssistantChat.tsx:35-36 | the service receives the system turn, the widget's window with each message truncated, and the message |
| EndToEnd.WidgetMessageReachesServiceTwice | server/ai-chat-server.mjs:56-57 | because the window already ends with the new user turn, the service receives a message of at most 1000 characters twice in a row (a longer one arrives cut, then in full) |
| EndToEnd.WindowIsConversation | src/components/AIAssistantChat.tsx:35 | the window of a transcript of user and assistant turns holds only such turns |
| Cyclic.Rem | src/components/HeroSlider.tsx:21-22 | JavaScript's `%`: the remainder differs from the dividend by a multiple of n and takes the dividend's sign, in [0, n) for a non-negative dividend and in (-n, 0] for a negative one, which fixes its value |
| HeroSlider.NextIndex | src/components/HeroSlider.tsx:21 | `next` stays in range, advances by one, and wraps from the last slide to 0 |
| HeroSlider.PrevIndex | src/components/HeroSlider.tsx:22 | `prev` stays in range, steps back by one, and wraps from 0 to the last slide |
| HeroSlider.PrevNextInverse | src/components/HeroSlider.tsx:21-22 | `prev` after `next`, and `next` after `prev`, return to the same slide |
| HeroSlider.NextTimes | src/components/HeroSlider.tsx:21-25 | any number of `next` steps (arrow or timer) stays in range |
| HeroSlider.NextTimesAdvances | src/components/HeroSlider.tsx:21 | k steps forward land on slide (p + k) mod 5 |
| HeroSlider.FullCycle | src/components/HeroSlider.tsx:10-21 | five steps forward return to the starting slide |
| HeroSlider.Slider.constructor | src/components/HeroSlider.tsx:19 | the slider starts on slide 0 |
| HeroSlider.Slider.CurrentSlide | src/components/HeroSlider.tsx:41-61 | `slides[current]` is always a slide of the list |
| HeroSlider.Slider.Next | src/components/HeroSlider.tsx:21 | the right arrow and the timer tick move to the next slide and keep the index in range |
| HeroSlider.Slider.Prev | src/components/HeroSlider.tsx:22 | the left arrow moves to the previous slide and keeps the index in range |
| HeroSlider.Slider.GoTo | src/components/HeroSlider.tsx:88-91 | dot i shows slide i |
| Gallery.NavigateIndex | src/pages/Gallery.tsx:36 | from a shown image, any step no further back than the image count gives an image index, and a step that stays in range is exact |
| Gallery.NavigateWraps | src/pages/Gallery.tsx:36 | +1 from the last image gives 0, and -1 from 0 gives the last image |
| Gallery.NavigateInverse | src/pages/Gallery.tsx:36 | a step forward and a step back, in either order, restore the index |
| Gallery.NavigateFarBackIsNegative | src/pages/Gallery.tsx:36 | the formula relies on its callers: a step of -9 from image 0 gives -1 |
| Gallery.Lightbox.constructor | src/pages/Gallery.tsx:32 | the lightbox starts closed |
| Gallery.Lightbox.Shown | src/pages/Gallery.tsx:113-118 | an open lightbox shows an image of the list; a closed one shows none |
| Gallery.Lightbox.OpenAt | src/pages/Gallery.tsx:59 | thumbnail i opens image i |
| Gallery.Lightbox.Close | src/pages/Gallery.tsx:81-84 | the close button and the backdrop close the lightbox |
| Gallery.Lightbox.Navigate | src/pages/Gallery.tsx:34-37 | on a closed lightbox nothing happens; the arrows (dir -1 and 1) move by the wrap-around formula and keep the index in range |
| Articles.Filtered | src/pages/Articles.tsx:57-61 | every listed article matches both the category and the search |
| Articles.FilteredKeepsExactlyMatches | src/pages/Articles.tsx:57-61 | the list is an order-preserving subsequence of the articles, and it holds every matching article as often as it occurs, and nothing else |
| Articles.MatchesSearchIff | src/pages/Articles.tsx:59 | the search matches exactly when the lowercased search occurs at some index of the lowercased title or of the lowercased excerpt |
| Articles.EmptySearchIsCategory | src/pages/Articles.tsx:58-60 | with an empty search, the list is the articles of the category: all for "All", and those with exactly that category otherwise |
| Articles.EmptySearchShowsAll | src/pages/Articles.tsx:57-60 | an empty search in "All" lists every article |
| Articles.CategoryWithinAll | src/pages/Articles.tsx:58-60 | for a fixed search, any category's list is a sublist of the "All" list |
| Articles.SearchIgnoresCase | src/pages/Articles.tsx:59 | searching for a text or for its lowercase form gives the same list |
| Articles.NoResultsIff | src/pages/Articles.tsx:140-142 | "No articles found" is shown exactly when no article matches |
| Articles.ArticleCategoriesOffered | src/pages/Articles.tsx:16-51 | every article's category is one of the category buttons other than "All" |
| Articles.WellnessHoldsOneArticle | src/pages/Articles.tsx:43-61 | on the page's own articles, "Wellness" with an empty search lists only the seasonal-living article |
| About.DisplayDescription | src/pages/About.tsx:72-76 | a description of at most 180 characters, or an expanded one, is shown in full; a longer collapsed one shows exactly its first 180 characters and "…", 181 characters in all |
| About.ShowsCutIff | src/pages/About.tsx:72-76 | the card shows something other than the full text exactly when the text is long, the card is collapsed, and the cut does not happen to reproduce it |
| About.DisplayedIsPrefix | src/pages/About.tsx:73-76 | the shown text, up to the ellipsis, is a prefix of the description |
| About.PractitionerCard.constructor | src/pages/About.tsx:71 | a card starts collapsed |
| About.PractitionerCard.Displayed | src/pages/About.tsx:73-76 | a collapsed card with a long description shows its first 180 characters and "…"; any other card shows the full description |
| About.PractitionerCard.Toggle | src/pages/About.tsx:119-122 | the button, which only long descriptions have, flips the expanded state, so two clicks restore it |

## Left out

- The OpenAI client, its configuration and the model call. The service is a function parameter from message lists to `Threw` or a list of choice contents. Model name and temperature are not modelled.
- Express, cors, dotenv, the 1 MB JSON body limit, the port and the API key check, `app.listen` and logging. These are framework plumbing and I/O.
- `fetch` and `response.json()`. Their outcome is an input to `ChatClient.Interpret`: a rejection, or the `ok` flag with a parsed body or a parse failure. A rejected fetch or a body that is not JSON model the rethrown runtime error as `Passed`, with no message.
- `JSON.stringify` and `JSON.parse` as text. Bodies are parsed JSON values. JSON numbers are integers, because no rule looks at a number beyond its truthiness.
- The slider's five-second timer and the widget's asynchronous interleaving. A timer tick is a call of `Slider.Next`, and `onSend` is `BeginSend` followed by `CompleteSend`. Events arriving between these two steps are not modelled beyond the guard `BeginSend` keeps.
- The Enter-key handler of the widget, which calls the same `onSend` as the button.
- Rendering, animation, icons and CSS classes on every page, and the images' sources.
- The other pages: the home page, footer and routing are static content; the medicines page is static data with a modal; the appointments form relies only on browser `required` checks and a toast; the navbar only highlights links. The practitioners' data is page content.
- Text.Lower: lowercases ASCII letters only. `toLowerCase` also maps other capitals (such as "Â" to "â", or the Kelvin sign to "k"). Such capitals in the visitor's search are left as they are, so a search containing them can list fewer articles than the page does.
- ChatServer.SanitizedEntry, ChatServer.Truncated, About.IsLong, About.DisplayDescription: count characters. JavaScript's `length` and `slice` count UTF-16 code units, so the 1000- and 180-character cuts and the `length > 180` test differ for text with characters outside the Basic Multilingual Plane, and a JavaScript slice can split a surrogate pair, which the model cannot represent.
- Gallery.Lightbox.Navigate: requires a step of -1 or 1, the only steps the page uses. `Gallery.NavigateIndex` states what the formula gives for other steps.
