# RwandaScratch site rules in Dafny

This project models the logic of the RwandaScratch web site: the public
pages, the admin dashboard's content editors, the authentication
provider and the chat client. Each source file of that logic is one
Dafny module.

- **Mixed or imperative components are classes.** A component whose
  handlers update state step by step is a class. Its React state becomes
  fields, and each handler becomes a method with a `modifies` clause.
  These are the star cursor, the star field, the editors, the contact
  page, the chat page and the auth provider.
- **Pure logic is functions and lemmas.** Parsing, mappings, filters,
  labels and the prompt are functions with lemmas about them.
- **Effects are parameters.** Randomness, timers, clocks, Firestore and
  REST calls, `fetch`, `confirm` and `encodeURIComponent` are values the
  caller passes in, such as the draws of `Math.random()` or a store
  outcome that resolves or throws.

The shared module `Text` models the ECMAScript string operations the
components rely on:

- `trim`, `trimStart` and `trimEnd`, with the WhiteSpace and
  LineTerminator sets;
- `split` on one character, and `join`;
- `includes`;
- `replace` of the first occurrence of one character;
- `toUpperCase` on ASCII.

With these it models the comma-list parser that five editors share:
`split(',')`, then `trim` on each piece, then `filter(Boolean)`. It
proves that this parser and `join(', ')` round-trip.

`Api` models the REST client's default export: the bare axios
instance, which only has axios's request methods.

`Common` holds `Option`, the JavaScript `||` fallback on optional
strings, and the resolve-or-throw outcome of an awaited call.

## Model

| member | source | states |
|---|---|---|
| Common.OrElse | src/lib/gemini.ts:14-19 | `value \|\| fallback`: the value when present and non-empty, the fallback when missing or empty |
| Text.Trim | src/components/admin/ProjectsManager.tsx:72 | `trim` gives the string cut between a white-space prefix and a white-space suffix; its result has no white space at either end; an already trimmed string is unchanged |
| Text.TrimCut | src/components/admin/ProjectsManager.tsx:72 | the cut points of `trim` are the end of the leading white space and the start of the trailing white space |
| Text.TrimStart | src/components/admin/ProjectsManager.tsx:72 | `trimStart` never lengthens the string and leaves no white space in front; `TrimStartCut` shows it removes exactly a white-space prefix |
| Text.TrimStartCut | src/components/admin/ProjectsManager.tsx:72 | `trimStart` keeps a suffix of the string, and what it removes is all white space |
| Text.TrimEnd | src/components/admin/ProjectsManager.tsx:72 | `trimEnd` never lengthens the string and leaves no white space at the end; `TrimEndCut` shows it removes exactly a white-space suffix |
| Text.TrimEndCut | src/components/admin/ProjectsManager.tsx:72 | `trimEnd` keeps a prefix of the string, and what it removes is all white space |
| Text.TrimEmptyIffSpace | src/pages/Chat.tsx:43 | `s.trim()` is empty exactly when `s` is all white space |
| Text.TrimInside | src/components/admin/ProjectsManager.tsx:72-73 | `trim` adds no character: a comma absent from a piece is absent from its trimmed form |
| Text.TrimAfterSpace | src/pages/Contact.tsx:38-47 | leading white space does not change the result of `trim` |
| Text.TrimEndAfterText | src/pages/Contact.tsx:38-47 | trimming text that is followed by pure white space removes exactly that tail and the text's own trailing blanks |
| Text.Split | src/components/admin/EventsManager.tsx:103 | `split` gives at least one piece, and the first piece is no longer than the string |
| Text.SplitSpec | src/components/admin/EventsManager.tsx:103 | the pieces of `split` contain no separator, and joining them with the separator gives the string back |
| Text.SplitHead | src/components/admin/EventsManager.tsx:103 | `split(sep)[0]` is the prefix before the first separator; without a separator the result is the whole string as the only piece |
| Text.Join | src/components/admin/ProjectsManager.tsx:110-111 | `join` of no items is empty, otherwise it starts with the first item; `SplitSpec` and `ParseJoin` show `split` and the comma-list parse undo it |
| Text.DropEmpty | src/components/admin/ProjectsManager.tsx:72 | `filter(Boolean)` never adds items and leaves a list without empty strings unchanged; `DropEmptyKeeps` shows it keeps exactly the non-empty ones |
| Text.DropEmptyKeeps | src/components/admin/ProjectsManager.tsx:72 | `filter(Boolean)` keeps exactly the non-empty strings |
| Text.ParseList | src/components/admin/ProjectsManager.tsx:72-73 | the comma-list parse gives at most one item per comma-separated piece; `ParseListClean`, `SegmentParse`, `ParseAfterSegment` and `ParseJoin` give its items, their order and its inverse |
| Text.ParseListClean | src/components/admin/ProjectsManager.tsx:72-73 | every item of the comma-list parse is non-empty, trimmed and comma-free |
| Text.SegmentParse | src/components/admin/ProjectsManager.tsx:72-73 | a comma-free segment parses to its trimmed text, or to nothing when blank |
| Text.ParseAfterSegment | src/components/admin/ProjectsManager.tsx:72-73 | parsing proceeds segment by segment, keeping their order |
| Text.ParseTrailingComma | src/components/admin/BlogManager.tsx:242 | a trailing comma adds nothing to the comma-list parse |
| Text.ParseJoin | src/components/admin/ProjectsManager.tsx:110-111 | parsing clean items joined with ", " gives exactly those items back |
| Text.ParseJoinNonEmpty | src/components/admin/BlogManager.tsx:239-243 | a non-empty list of clean items joined with ", " parses back to itself |
| Text.ContainsSuffix | src/components/SEOHelmet.tsx:21 | a string includes any suffix appended to it |
| Text.IndexFrom | src/components/admin/WebsiteRequestsManager.tsx:130 | the first occurrence of a character from an index on, or the length when there is none |
| Text.ReplaceFirst | src/components/admin/WebsiteRequestsManager.tsx:130 | `replace` leaves a string without the pattern unchanged; otherwise it replaces the first occurrence and keeps everything around it |
| Text.ReplaceFirstAt | src/components/admin/WebsiteRequestsManager.tsx:130 | `replace` with a one-character pattern changes only its first occurrence and keeps the rest |
| Text.UpperChar | src/components/admin/WebsiteRequestsManager.tsx:130 | a lower-case ASCII letter becomes its upper-case letter; any other character is kept |
| Text.ToUpper | src/components/admin/WebsiteRequestsManager.tsx:130 | `toUpperCase` keeps the length and maps each character on its own |
| Text.ReplaceFirstAbsent | src/components/admin/WebsiteRequestsManager.tsx:130 | `replace` leaves a string without the pattern unchanged |
| Api.Invoke | src/lib/api.ts:5-10 | a call by name on the default export gives the server's outcome for one of the axios request methods and throws for any other name |
| Api.EditorCallsMissing | src/lib/api.ts:95 | none of the seven names the blog and message editors call is a method of the default export |
| StarCursor.CreateStar | src/components/StarCursor.tsx:18-32 | a new star has full opacity and lies within 15 px of the mouse; its scale is in [0.3, 0.8), its rotation in [0, 360) and its velocity in [-1, 1) |
| StarCursor.AdvanceAll | src/components/StarCursor.tsx:40-47 | every star of the trail advanced by one frame, in order |
| StarCursor.Advance | src/components/StarCursor.tsx:40-47 | a frame moves a star by its velocity, keeps its id and velocity, lowers its opacity and shrinks it |
| StarCursor.Tick | src/components/StarCursor.tsx:37-49 | a frame never adds stars: every star left is an input star advanced one frame; every star left is still visible; every star brighter than one step survives, advanced |
| StarCursor.TickOne | src/components/StarCursor.tsx:38-48 | a lone star is kept, advanced, exactly when its advanced opacity is positive; with `TickAppend` this determines the frame |
| StarCursor.TickAppend | src/components/StarCursor.tsx:38-48 | the frame treats each star on its own and keeps their order |
| StarCursor.TickFades | src/components/StarCursor.tsx:44-48 | every surviving star has faded by exactly one step |
| StarCursor.FadedAfter | src/components/StarCursor.tsx:44-48 | stars at most `2k` hundredths bright are all gone after `k` frames |
| StarCursor.LoneStarSurvives | src/components/StarCursor.tsx:44-48 | a star brighter than `2k` hundredths is still shown after `k` frames, `2k` hundredths dimmer |
| StarCursor.FreshStarLifetime | src/components/StarCursor.tsx:23 | a new star is still shown after 49 frames and gone after 50 |
| StarCursor.Spawn | src/components/StarCursor.tsx:66 | the new star is last; at most 16 stars remain; the older stars kept are the latest ones, in order |
| StarCursor.StarTrail.constructor | src/components/StarCursor.tsx:15-16 | no stars, mouse at the origin, no spawn pending |
| StarCursor.StarTrail.Move | src/components/StarCursor.tsx:60-70 | the mouse is always recorded; a spawn is scheduled only when none is pending, with the position at that moment |
| StarCursor.StarTrail.FireSpawn | src/components/StarCursor.tsx:64-68 | the timer adds one star at the captured position through the 16-star window and clears the gate, keeping the trail invariant |
| StarCursor.StarTrail.Frame | src/components/StarCursor.tsx:37-49 | one animation frame is `Tick`, and the trail invariant holds afterwards |
| StarCursor.MoveBurst | src/components/StarCursor.tsx:60-70 | a burst of moves schedules one spawn, at the first position of the burst |
| StarryBackground.StarCount | src/components/StarryBackground.tsx:52 | `floor(width*height/4000)` stars: the largest count whose area fits |
| StarryBackground.FullHdCount | src/components/StarryBackground.tsx:52 | a 1920x1080 window holds 518 stars |
| StarryBackground.Scale | src/components/StarryBackground.tsx:55-56 | `Math.random() * extent` lies in [0, extent), or is 0 when the extent is 0 |
| StarryBackground.MakeStar | src/components/StarryBackground.tsx:55-66 | a new star sits at its base point inside the window; its size, opacity, speed and phase are in their ranges |
| StarryBackground.InitStars | src/components/StarryBackground.tsx:51-68 | `initStars` builds exactly `StarCount` stars, the i-th from the i-th draws, all inside the field |
| StarryBackground.Normalize | src/components/StarryBackground.tsx:47-48 | mouse coordinates map into [-1, 1], the two edges to -1 and 1 |
| StarryBackground.NormalizeInverse | src/components/StarryBackground.tsx:47-48 | the client coordinate can be recovered from the normalised one |
| StarryBackground.Ease | src/components/StarryBackground.tsx:74-75 | one easing step leaves 95% of the gap to the target and never overshoots |
| StarryBackground.EaseNGap | src/components/StarryBackground.tsx:74-75 | after `k` frames the gap is `0.95^k` of the original, so the target is approached and never passed |
| StarryBackground.Parallax | src/components/StarryBackground.tsx:87-88 | the parallax offset is at most `100 * speed` either way |
| StarryBackground.Draw | src/components/StarryBackground.tsx:83-97 | the drawn radius is the star's size; the drawn point stays within the parallax and bounce bounds of its base; alpha is in [0, 0.7) |
| StarryBackground.StarField.constructor | src/components/StarryBackground.tsx:26-35 | mouse state at zero, then the stars of the window size |
| StarryBackground.StarField.Resize | src/components/StarryBackground.tsx:37-43 | records the new size and rebuilds the stars for it |
| StarryBackground.StarField.MouseMove | src/components/StarryBackground.tsx:45-49 | only the target moves, to the normalised position |
| StarryBackground.StarField.Frame | src/components/StarryBackground.tsx:70-102 | the mouse eases one step; one draw per star |
| Auth.CheckUserExists | src/contexts/AuthContext.tsx:51-74 | a profile is granted exactly for an existing, active user document, with the display name and role defaults; the two refusal messages otherwise |
| Auth.GrantedProfile | src/contexts/AuthContext.tsx:56-62 | a granted profile is active and has a non-empty role |
| Auth.ListenerAsWritten | src/contexts/AuthContext.tsx:138-153 | the listener as written: a refused user whose sign-out throws leaves the state loading |
| Auth.ListenerAsWrittenHangs | src/contexts/AuthContext.tsx:143-152 | a concrete event that leaves `loading` true forever |
| Auth.Listener | src/contexts/AuthContext.tsx:138-153 | the corrected listener: every event ends loading; a profile is stored exactly for a granted user |
| Auth.ListenerAgrees | src/contexts/AuthContext.tsx:138-153 | the two listeners agree whenever no sign-out is needed or it resolves |
| Auth.ListenerConsistent | src/contexts/AuthContext.tsx:138-153 | a stored profile belongs to the current user and is active |
| Auth.AuthProvider.constructor | src/contexts/AuthContext.tsx:45-47 | no user, no profile, loading |
| Auth.AuthProvider.Login | src/contexts/AuthContext.tsx:77-95 | success exactly when sign-in and the profile check succeed; the welcome toast or the failure toast with the error message or its fallback |
| Auth.AuthProvider.Logout | src/contexts/AuthContext.tsx:119-135 | the profile is cleared only when sign-out resolves; toasts as written |
| Auth.AuthProvider.OnAuthStateChanged | src/contexts/AuthContext.tsx:138-153 | the provider state becomes the corrected listener's result |
| AdminDashboard.Render | src/pages/AdminDashboard.tsx:35-41 | the dashboard exactly for an admin profile, on the overview tab; everyone else is redirected home |
| AdminDashboard.DashboardNeedsActiveAdmin | src/pages/AdminDashboard.tsx:39-41 | after an auth event the dashboard is shown only to an active user whose document role is admin |
| SiteContent.ReplaceById | src/components/admin/SiteContentManager.tsx:88-90 | the saved section replaces every section with its id; the others are untouched; the length is kept |
| SiteContent.ReplaceAbsent | src/components/admin/SiteContentManager.tsx:88-90 | saving a section whose id is absent changes nothing |
| SiteContent.ReplaceKeepsIds | src/components/admin/SiteContentManager.tsx:88-90 | the ids, and so the order, never change |
| SiteContent.ReplaceIdempotent | src/components/admin/SiteContentManager.tsx:88-90 | saving the same section twice equals saving it once |
| SiteContent.SaveRecord | src/components/admin/SiteContentManager.tsx:80-84 | the written record is the section with the editor's uid |
| SiteContent.NewSection | src/components/admin/SiteContentManager.tsx:112-133 | the new section's default fields under the id the store gave |
| SiteContent.SiteContentManager.constructor | src/components/admin/SiteContentManager.tsx:42-45 | empty list, nothing edited, loading, not saving |
| SiteContent.SiteContentManager.FetchContent | src/components/admin/SiteContentManager.tsx:53-74 | a successful query replaces the list; loading ends either way |
| SiteContent.SiteContentManager.HandleSave | src/components/admin/SiteContentManager.tsx:76-107 | nothing without a profile; otherwise the record is written and, when the write resolves, replaced by id and editing ends |
| SiteContent.SiteContentManager.HandleCreate | src/components/admin/SiteContentManager.tsx:109-142 | with a profile and an id from the store the new section is appended and opened for editing |
| ProjectsAdmin.ToProjectData | src/components/admin/ProjectsManager.tsx:70-74 | the two list fields are parsed into clean items; every other field is copied |
| ProjectsAdmin.EditForm | src/components/admin/ProjectsManager.tsx:104-118 | lists are joined with ", "; missing links and image become "" |
| ProjectsAdmin.EditThenSubmit | src/components/admin/ProjectsManager.tsx:67-118 | editing a project and submitting unchanged sends back its lists and fields |
| ProjectsAdmin.SubmitRequest | src/components/admin/ProjectsManager.tsx:76-80 | update with the edited project's id exactly when one is being edited, else create |
| ProjectsAdmin.ProjectsManager.constructor | src/components/admin/ProjectsManager.tsx:33-47 | empty form, nothing edited, dialog closed |
| ProjectsAdmin.ProjectsManager.ResetForm | src/components/admin/ProjectsManager.tsx:140-153 | empty form, nothing edited |
| ProjectsAdmin.ProjectsManager.HandleEdit | src/components/admin/ProjectsManager.tsx:104-118 | the project is edited in an open dialog with its form |
| ProjectsAdmin.ProjectsManager.HandleSubmit | src/components/admin/ProjectsManager.tsx:67-102 | sends the request; on success the dialog closes and the form resets; on failure the state is kept |
| EventsAdmin.ToEventData | src/components/admin/EventsManager.tsx:64-67 | authors parsed into clean items; other fields copied |
| EventsAdmin.DatePartSpec | src/components/admin/EventsManager.tsx:103 | the date part is the prefix before the first 'T', contains no 'T', is the whole date when there is none, and is idempotent |
| EventsAdmin.DatePart | src/components/admin/EventsManager.tsx:103 | the day part is a prefix of the date without a `T`; `DatePartSpec` shows it stops at the first `T` |
| EventsAdmin.EditForm | src/components/admin/EventsManager.tsx:97-108 | date cut at 'T'; authors joined; missing image becomes "" |
| EventsAdmin.EditThenSubmit | src/components/admin/EventsManager.tsx:61-108 | editing then submitting returns the clean authors, and a date without 'T' that is unchanged when it had none |
| EventsAdmin.SubmitRequest | src/components/admin/EventsManager.tsx:69-73 | update exactly when an event is being edited, else create |
| EventsAdmin.EventsManager.constructor | src/components/admin/EventsManager.tsx:30-43 | empty form, nothing edited, dialog closed |
| EventsAdmin.EventsManager.ResetForm | src/components/admin/EventsManager.tsx:130-140 | empty form, nothing edited |
| EventsAdmin.EventsManager.HandleEdit | src/components/admin/EventsManager.tsx:97-108 | the event is edited in an open dialog with its form |
| EventsAdmin.EventsManager.HandleSubmit | src/components/admin/EventsManager.tsx:61-95 | sends the request; on success the dialog closes and the form resets; on failure the state is kept |
| ServicesAdmin.AddAccepted | src/components/admin/ServicesManager.tsx:68 | a service is added exactly with a profile and a title that is not blank |
| ServicesAdmin.ToRecord | src/components/admin/ServicesManager.tsx:71-77 | features parsed into clean items; fields copied; the creator's uid recorded |
| ServicesAdmin.ServicesManager.constructor | src/components/admin/ServicesManager.tsx:29-36 | blank form, nothing edited |
| ServicesAdmin.ServicesManager.HandleAdd | src/components/admin/ServicesManager.tsx:67-101 | nothing written unless accepted; the record written; the form reset only when the write resolves |
| ServicesAdmin.ServicesManager.HandleUpdate | src/components/admin/ServicesManager.tsx:103-129 | nothing without a profile; the patch with the editor's uid; editing ends only when the write resolves |
| ServicesAdmin.DeleteTarget | src/components/admin/ServicesManager.tsx:131-135 | the service is deleted exactly when a profile is present |
| BlogAdmin.TitleAccepted | src/components/admin/BlogManager.tsx:72 | a post is submitted exactly when its title is not blank |
| BlogAdmin.TagsInput | src/components/admin/BlogManager.tsx:242 | typed tags become clean items |
| BlogAdmin.TagsDisplay | src/components/admin/BlogManager.tsx:239 | no tags show as a blank field, otherwise the field starts with the first tag; `TagsRoundTrip` shows parsing the field gives clean tags back |
| BlogAdmin.TagsRoundTrip | src/components/admin/BlogManager.tsx:239-243 | clean tags shown joined with ", " and parsed back are unchanged |
| BlogAdmin.TagsCommaErased | src/components/admin/BlogManager.tsx:239-243 | a comma typed after the last tag parses to the same tags, so the box shows the old text again and the comma disappears |
| BlogAdmin.TagsInputStable | src/components/admin/BlogManager.tsx:239-243 | re-parsing the displayed tags changes nothing |
| BlogAdmin.LeadingDigits | src/components/admin/BlogManager.tsx:197 | the length of the run of decimal digits at the start |
| BlogAdmin.ParseInt | src/components/admin/BlogManager.tsx:197 | `parseInt` is NaN exactly when no digit follows the leading blanks and optional sign |
| BlogAdmin.ParseIntAfterSpace | src/components/admin/BlogManager.tsx:197 | leading white space does not change `parseInt` |
| BlogAdmin.NatToString | src/components/admin/BlogManager.tsx:197 | a decimal numeral is a non-empty string of digits |
| BlogAdmin.NatToStringValue | src/components/admin/BlogManager.tsx:197 | the numeral's digits denote the number |
| BlogAdmin.ParseIntNumeral | src/components/admin/BlogManager.tsx:197 | `parseInt` of a number's numeral is that number |
| BlogAdmin.DigitsThenStop | src/components/admin/BlogManager.tsx:197 | the digit run of a numeral followed by a non-digit is the numeral |
| BlogAdmin.ParseIntStopsAtNonDigit | src/components/admin/BlogManager.tsx:197 | `parseInt` reads a numeral and stops at the first non-digit after it, so "1.5" and "1e3" give 1 |
| BlogAdmin.ParseIntNegative | src/components/admin/BlogManager.tsx:197 | a leading '-' negates the numeral after it |
| BlogAdmin.ReadTimeOf | src/components/admin/BlogManager.tsx:197 | `parseInt(value) \|\| 5`: the parsed number unless it is NaN or 0, then 5; never 0 |
| BlogAdmin.ReadTimeOfNumeral | src/components/admin/BlogManager.tsx:197 | a positive numeral is read back as that number |
| BlogAdmin.ReadTimeOfNegative | src/components/admin/BlogManager.tsx:197 | a typed negative number is stored as that negative read time; "-0" falls back to 5 |
| BlogAdmin.ReadTimeOfDecimal | src/components/admin/BlogManager.tsx:197 | a typed decimal with a positive integer part is stored as that integer part |
| BlogAdmin.EditForm | src/components/admin/BlogManager.tsx:111-125 | the form holds the post's nine fields |
| BlogAdmin.SubmitRequest | src/components/admin/BlogManager.tsx:82-98 | update with the selected id exactly when editing a selected post, else create; the form is the body |
| BlogAdmin.SubmitMethod | src/components/admin/BlogManager.tsx:82-91 | `updateBlogPost` exactly when editing a selected post, otherwise `createBlogPost` |
| BlogAdmin.SubmitCallAsWritten | src/components/admin/BlogManager.tsx:83-91 | as written, the submit call always throws, whatever the server would answer |
| BlogAdmin.BlogManager.constructor | src/components/admin/BlogManager.tsx:17-35 | blank form, not editing, nothing selected |
| BlogAdmin.BlogManager.ResetForm | src/components/admin/BlogManager.tsx:55-69 | blank form with read time 5, not editing, nothing selected |
| BlogAdmin.BlogManager.HandleEdit | src/components/admin/BlogManager.tsx:111-125 | the post is selected and edited with its form |
| BlogAdmin.BlogManager.TypeTags | src/components/admin/BlogManager.tsx:239-243 | typing in the tags box stores the parsed tags |
| BlogAdmin.BlogManager.TypeReadTime | src/components/admin/BlogManager.tsx:197 | typing in the read-time box stores `ReadTimeOf` of the text |
| BlogAdmin.BlogManager.HandleSubmit | src/components/admin/BlogManager.tsx:71-109 | the intended handler, for a client that has the blog methods: a blank title makes no request; otherwise the request is built, and the form is reset when the call resolves and kept when it throws |
| BlogAdmin.BlogManager.HandleSubmitAsWritten | src/components/admin/BlogManager.tsx:71-109 | the handler as written: a blank title makes no call; every other submit throws, so the form and the selection never change |
| WebsiteInfo.FromDoc | src/components/admin/WebsiteInfoManager.tsx:38-45 | missing fields become ""; an array of services is joined with ", ", anything else gives "" |
| WebsiteInfo.ToDoc | src/components/admin/WebsiteInfoManager.tsx:58-70 | services parsed into clean items; contact nested; the editor's uid |
| WebsiteInfo.LoadThenSave | src/components/admin/WebsiteInfoManager.tsx:31-87 | loading and saving unedited keeps name, description, contact and a clean services list; a non-array is saved as [] |
| WebsiteInfo.SaveThenLoad | src/components/admin/WebsiteInfoManager.tsx:31-87 | saving and reloading returns the form with its services text normalised |
| WebsiteInfo.WebsiteInfoManager.constructor | src/components/admin/WebsiteInfoManager.tsx:14-23 | blank form, loading, not saving |
| WebsiteInfo.WebsiteInfoManager.FetchInfo | src/components/admin/WebsiteInfoManager.tsx:31-52 | a present document fills the form; otherwise it is kept; loading ends |
| WebsiteInfo.WebsiteInfoManager.HandleSave | src/components/admin/WebsiteInfoManager.tsx:54-87 | nothing without a profile; else `ToDoc` of the form is written and saving ends |
| WebsiteRequests.Without | src/components/admin/WebsiteRequestsManager.tsx:99 | the filter keeps exactly the values other than the dropped one |
| WebsiteRequests.WithoutOne | src/components/admin/WebsiteRequestsManager.tsx:99 | removing a value that occurs once keeps the rest in order |
| WebsiteRequests.WithoutAbsent | src/components/admin/WebsiteRequestsManager.tsx:99 | filtering out a value that does not occur keeps the list whole |
| WebsiteRequests.StatusOptions | src/components/admin/WebsiteRequestsManager.tsx:97-100 | the options are every status except the current one |
| WebsiteRequests.StatusOptionsSpec | src/components/admin/WebsiteRequestsManager.tsx:97-100 | a known status is offered the other three in menu order; an unknown one all four |
| WebsiteRequests.StatusColor | src/components/admin/WebsiteRequestsManager.tsx:87-95 | grey exactly for a status outside the four |
| WebsiteRequests.StatusColorDistinct | src/components/admin/WebsiteRequestsManager.tsx:87-95 | distinct known statuses get distinct colours |
| WebsiteRequests.StatusLabelSpec | src/components/admin/WebsiteRequestsManager.tsx:130 | the label upper-cases the status with its first '-' turned into a blank |
| WebsiteRequests.StatusLabel | src/components/admin/WebsiteRequestsManager.tsx:130 | the badge text is as long as the status and has no lower-case letter; `StatusLabelSpec` gives its exact text |
| WebsiteRequests.InProgressLabel | src/components/admin/WebsiteRequestsManager.tsx:130 | "in-progress" is shown as "IN PROGRESS" |
| WebsiteRequests.PendingLabel | src/components/admin/WebsiteRequestsManager.tsx:130 | "pending" is shown as "PENDING" |
| WebsiteRequests.CompletedLabel | src/components/admin/WebsiteRequestsManager.tsx:130 | "completed" is shown as "COMPLETED" |
| WebsiteRequests.RejectedLabel | src/components/admin/WebsiteRequestsManager.tsx:130 | "rejected" is shown as "REJECTED" |
| WebsiteRequests.StatusUpdate | src/components/admin/WebsiteRequestsManager.tsx:61-85 | a write exactly with a profile: the new status and the editor's uid |
| ContactInbox.Target | src/components/admin/ContactManager.tsx:39 | an action stores "read" or "replied" |
| ContactInbox.Offered | src/components/admin/ContactManager.tsx:200-215 | "Mark as Read" exactly for an unread message; "Mark as Replied" exactly until it is replied |
| ContactInbox.OfferedAdvances | src/components/admin/ContactManager.tsx:200-215 | every offered action moves a message strictly forward and never back to unread |
| ContactInbox.RepliedIsFinal | src/components/admin/ContactManager.tsx:200-215 | a replied message is offered nothing |
| ContactInbox.StatusColor | src/components/admin/ContactManager.tsx:80-87 | destructive for unread, default for replied, secondary otherwise |
| ContactInbox.UpdateFor | src/components/admin/ContactManager.tsx:39-56 | the update for an action never sets a message to unread |
| ContactInbox.DeleteCallAsWritten | src/components/admin/ContactManager.tsx:62 | as written, the delete call always throws, whatever the server would answer |
| ContactInbox.ContactManager.constructor | src/components/admin/ContactManager.tsx:13-19 | nothing selected |
| ContactInbox.ContactManager.HandleDelete | src/components/admin/ContactManager.tsx:58-78 | the intended handler, for a client that has `deleteContactMessage` and answers with a `success` flag: nothing is sent unless confirmed; the dialog closes only on a successful answer |
| ContactInbox.ContactManager.HandleDeleteAsWritten | src/components/admin/ContactManager.tsx:58-78 | the handler as written: an unconfirmed delete makes no call; a confirmed one throws, so the dialog never closes |
| ContactPage.Valid | src/pages/Contact.tsx:26-33 | a form is sent exactly when all four fields are non-empty |
| ContactPage.BlankTextPasses | src/pages/Contact.tsx:26 | fields of white space pass the form validation |
| ContactPage.MessageShape | src/pages/Contact.tsx:38-47 | the message is the header and fields, then the user's text without its trailing blanks; a blank text leaves the header and fields alone |
| ContactPage.MessageStartsWithLead | src/pages/Contact.tsx:38-47 | the message always starts with the header, then name, e-mail and subject in order |
| ContactPage.WhatsAppMessage | src/pages/Contact.tsx:38-47 | the message has no white space at either end and is no longer than its template; `MessageShape` gives its exact text |
| ContactPage.Link | src/pages/Contact.tsx:50-56 | the link is the WhatsApp prefix followed by the encoded message |
| ContactPage.LinkInjective | src/pages/Contact.tsx:50-56 | with an injective encoding, different messages give different links |
| ContactPage.Update | src/pages/Contact.tsx:16-20 | the named field takes the value, the others are kept |
| ContactPage.ContactPage.constructor | src/pages/Contact.tsx:7-13 | blank form, not sending |
| ContactPage.ContactPage.HandleInputChange | src/pages/Contact.tsx:16-20 | the form becomes `Update` of the old one |
| ContactPage.ContactPage.HandleSend | src/pages/Contact.tsx:22-70 | an incomplete form opens nothing and is kept; a complete one opens its link and is cleared |
| ProjectsPage.Keep | src/pages/Projects.tsx:74 | the filter keeps exactly the projects of the category, never more than given |
| ProjectsPage.KeepAppend | src/pages/Projects.tsx:74 | the filter distributes over concatenation, so it keeps the original order |
| ProjectsPage.Filtered | src/pages/Projects.tsx:72-74 | "all" gives the whole catalogue; any other value gives the projects of that category |
| ProjectsPage.WebMobilePartition | src/pages/Projects.tsx:72-74 | when every project is web or mobile, the two filters hold each project as often as the list |
| ProjectsPage.CatalogueCategories | src/pages/Projects.tsx:6-61 | the six projects: three web, then three mobile |
| ProjectsPage.CategoryTab | src/pages/Projects.tsx:72-74 | the web tab shows the first three projects, the mobile tab the last three |
| ProjectsPage.CatalogueByCategory | src/pages/Projects.tsx:6-74 | the web and mobile tabs split the catalogue: every project once |
| ProjectsPage.ShowsEmptyState | src/pages/Projects.tsx:130 | "No Projects Yet" shows exactly when the filter leaves nothing |
| ProjectsPage.EmptyStateOnlyOffTabs | src/pages/Projects.tsx:130-197 | none of the three tabs shows the empty state; any other category would |
| ProjectsPage.Badge | src/pages/Projects.tsx:146 | "Web App" exactly for web projects, "Mobile App" for all others |
| SeoHead.FullTitle | src/components/SEOHelmet.tsx:21 | a title mentioning the brand is kept, any other gets " \| RwandaScratch"; the result always mentions the brand |
| SeoHead.KeptIffBranded | src/components/SEOHelmet.tsx:21 | the title is kept exactly when it mentions the brand |
| SeoHead.FullTitleIdempotent | src/components/SEOHelmet.tsx:21 | applying the rule twice equals applying it once |
| SeoHead.HeadOf | src/components/SEOHelmet.tsx:13-47 | title, og:title and twitter:title share the full title; omitted keywords, image and type take their defaults; the three URLs agree |
| SeoHead.TitlesBranded | src/components/SEOHelmet.tsx:26-45 | all three titles mention the brand |
| Gemini.Fields | src/lib/gemini.ts:14-19 | each missing or empty field takes its default; a services array is joined with ", "; any other services value throws |
| Gemini.FieldsNonEmpty | src/lib/gemini.ts:14-19 | every value shown in the prompt is non-empty |
| Gemini.PromptEndsWithMessage | src/lib/gemini.ts:29 | the prompt ends with "User message: " and the message |
| Gemini.Prompt | src/lib/gemini.ts:11-29 | the prompt starts with the company context and ends with the user's message as typed |
| Gemini.Context | src/lib/gemini.ts:11-27 | the context opens with the assistant introduction and closes with the instructions |
| Gemini.UserLine | src/lib/gemini.ts:29 | the last line is the fixed "User message: " label followed by the message unchanged |
| Gemini.ReplyOf | src/lib/gemini.ts:45-54 | the candidate's text when present and non-empty; the try-again apology when it is missing; the contact-us apology on a failed or non-OK call |
| Gemini.SendChatMessage | src/lib/gemini.ts:9-55 | the contact-us apology when building the prompt throws, else the reply to the answer; never empty |
| Chat.Accepts | src/pages/Chat.tsx:43 | a send proceeds exactly when the input is not all white space and no reply is awaited |
| Chat.Reply | src/pages/Chat.tsx:55-69 | the client's reply when the call returns, the chat apology when it throws; never empty |
| Chat.ResolvedReply | src/pages/Chat.tsx:56-62 | a returned reply is the answer's text or one of the client's apologies |
| Chat.AppendInTurn | src/pages/Chat.tsx:51-65 | appending the entry whose turn it is keeps the log's greeting-then-alternating shape |
| Chat.ChatSession.constructor | src/pages/Chat.tsx:19-27 | the log is exactly the greeting; empty input; not loading |
| Chat.ChatSession.SetWebsiteInfo | src/pages/Chat.tsx:30-36 | the fetched company information is stored |
| Chat.ChatSession.SetInput | src/pages/Chat.tsx:26 | the input is replaced |
| Chat.ChatSession.BeginSend | src/pages/Chat.tsx:42-53 | a refused send changes nothing; an accepted one appends the untrimmed input as the user's entry, clears the input, sets loading and captures the current company information for the reply |
| Chat.ChatSession.FinishSend | src/pages/Chat.tsx:55-72 | the reply, built from the company information captured when the send began, is appended as the assistant's entry, and loading ends; information fetched meanwhile does not change it |
| Chat.ChatSession.Send | src/pages/Chat.tsx:42-73 | an accepted send appends exactly the user's entry then the assistant's; the reply uses the company information held when the send began; the old log is a prefix of the new one |

## Left out

- **Floating-point arithmetic.** Real arithmetic stands for IEEE doubles. Cursor-star opacity is kept in integer hundredths (1.0 = 100, one step = 2). Rounding drift in the doubles is not modelled.
- **StarCursor.FreshStarLifetime:** with doubles, 1 - 50·0.02 may stop a hair above or below 0. So a real browser may show a star for one more frame than this lemma states.
- **Sine values, `Date.now()`, `Math.random()` and element ids** are parameters. Their only assumption is the range the platform guarantees.
- **Canvas drawing, themes and animation scheduling** are left out. So are React rendering and the scroll-into-view effect. Only the values each frame computes are modelled.
- **StarryBackground:** mouse positions are not normalised for a zero-size window. `MouseMove` requires a non-zero width and height; with a zero-size window, JavaScript would give an infinite or NaN target.
- **Firestore, REST (`api.ts`), `fetch` and `getWebsiteInfo`** are outcomes passed in. A call resolves or throws, or a read returns a document, reports it absent, or fails. Refreshing lists after a write is not modelled.
- **The blog and message editors** call methods that the API's default export does not have, so as written every one of their calls throws (see Findings). `BlogAdmin.BlogManager.HandleSubmit` and `ContactInbox.ContactManager.HandleDelete` take the outcome as a parameter and model the intended client. The fetch on mount and `handleUpdateStatus` get the same throw as written, and their as-written forms are not modelled separately. The missing `success` field on axios responses is noted in Findings but not modelled further.
- **Server timestamps** (`createdAt`, `updatedAt`, message timestamps) are left out of the written records.
- **`loginWithGoogle`** is left out. It repeats `login` with a popup provider and different toast texts.
- **The delete handlers of the project and event editors** are left out. They only confirm and call the API.
- **`encodeURIComponent`** is an arbitrary function parameter. Its injectivity is a premise of `ContactPage.LinkInjective`.
- **`window.open`** is the URL the handler returns.
- **`confirm`** is the boolean `confirmed`.
- **BlogAdmin.ParseInt** models decimal input only. The `0x` prefix and precision above 2^53 are not modelled, since a number input never produces them.
- **Text.ToUpper** maps ASCII letters only. The statuses it is applied to are ASCII.
- **Chat.Reply:** the page's `catch` branch cannot be reached, because `sendChatMessage` catches every error itself. Chat.Reply models it anyway, with `Threw`.
- **The chat page's two states.** Messages from React's batched state updates are modelled as taken in order, through a captured `pending` input.
- **ProjectsPage:** a catalogue entry keeps only its title and category. The description, tech stack, image and links are rendered and nothing reads them.
- **Gemini.PromptEndsWithMessage** states only the end of the prompt. The full template text is in `Gemini.Context`, and no property is stated about its middle lines beyond `Gemini.Fields`.
- **Auth:** `OnAuthStateChanged` implements the corrected listener (see Findings). The listener as written is `Auth.ListenerAsWritten`.

## Findings

| source | as written | input that shows it | evidently intended | confidence | as-written member | corrected member |
|---|---|---|---|---|---|---|
| src/contexts/AuthContext.tsx:138-153 | when the profile check fails, the listener awaits `signOut` inside `catch` with no handler; if `signOut` rejects, `setCurrentUser` and `setLoading(false)` are never reached | a signed-in user with no `users` document, and a `signOut` that throws: `loading` stays true and the provider renders nothing | every auth event ends loading and stores no profile for a refused user | not executed | Auth.ListenerAsWritten | Auth.Listener |
| src/components/admin/BlogManager.tsx:83-91 | the handler calls `api.updateBlogPost` or `api.createBlogPost` on the default export of `api.ts`, which is the bare axios instance and has neither method; the response's `success` flag is read too, and axios responses have none | any submit with a title that is not blank: the call throws a `TypeError` before a request is made, only the error toast runs, and the post is never saved | the post is created or updated through a client that has these methods, and the form is reset once the call resolves | not executed | BlogAdmin.BlogManager.HandleSubmitAsWritten | BlogAdmin.BlogManager.HandleSubmit |
| src/components/admin/ContactManager.tsx:62 | the handler calls `api.deleteContactMessage` on the bare axios instance, which has no such method, and then reads a `success` flag that axios responses lack | a confirmed delete of any message: the call throws, the error toast runs, the message stays and the dialog stays open | the message is deleted and the dialog closes when the API reports success | not executed | ContactInbox.ContactManager.HandleDeleteAsWritten | ContactInbox.ContactManager.HandleDelete |
