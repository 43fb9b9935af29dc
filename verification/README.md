# Instagram clone: component state and activity/stats routes in Dafny

This project models the pure parts of a Next.js Instagram clone. That means the state
transitions inside its React components and the aggregation done by two API routes:

- the create-post wizard (`select → crop → filter → create`);
- the feed post's like, save, double-tap, carousel and two-comment window;
- the two story viewers;
- the stand-alone create page;
- the notifications page's tabs;
- the discover-people grid and the suggestions panel with their "Followed by …" lines;
- the archive grid;
- the saved collections page;
- `GET /api/users/activity`, which merges three capped lists and sorts them newest first;
- `GET /api/users/stats`, which builds a 30-day chart bucketed by UTC day and an engagement rate.

Every event the browser or server delivers is an input: a click, a timer firing, whether
a `fetch` response was ok, the JSON it carried, the answer to `confirm()`, or `Date.now()`.
Each handler is then a pure function from the component's state and the event to the next
state. Database queries are filters over tables given in the query's `orderBy` order.

Layout, one module per source file:

| file | module | models |
|---|---|---|
| common.dfy | `Common` | `Option`, user ids, the session, image files |
| seqs.dfy | `Seqs` | `filter`, `map`, `slice`, `take`, sums, and their laws |
| text.dfy | `Text` | `String.prototype.trim` as a blank test; decimal rendering of integers and its inverse |
| form.dfy | `Forms` | the multipart form fields the two create screens append, and reading them back |
| create_post_modal.dfy | `CreatePostModal` | src/components/CreatePostModal.tsx |
| feed_post.dfy | `FeedPost` | src/components/FeedPost.tsx |
| story_list.dfy | `StoryList` | src/components/StoryList.tsx |
| story_modal.dfy | `StoryModal` | src/components/StoryModal.tsx |
| create_page.dfy | `CreatePage` | src/app/create/page.tsx |
| notifications.dfy | `NotificationsPage` | src/app/notifications/page.tsx |
| discover_people.dfy | `DiscoverPeople` | src/components/DiscoverPeople.tsx |
| suggestions.dfy | `Suggestions` | src/components/Suggestions.tsx |
| archived_posts.dfy | `ArchivedPosts` | src/components/ArchivedPosts.tsx |
| saved_collections.dfy | `SavedCollections` | src/components/SavedCollections.tsx |
| activity_route.dfy | `ActivityRoute` | src/app/api/users/activity/route.ts |
| stats_route.dfy | `StatsRoute` | src/app/api/users/stats/route.ts |

Modelling choices:

- Times are integer milliseconds since the epoch.
- A calendar date (`toISOString().split("T")[0]`) is identified with its UTC day number, `ms / 86400000`. Dafny's division floors, which matches the date `toISOString` prints for times before 1970 too.
- JavaScript's `Array.prototype.sort` is stable, so the activity sort is modelled as a stable insertion sort.
- The engagement rate is an exact rational with explicit `Infinity` and `NaN` cases.

## Model

| member | source | states |
|---|---|---|
| CreatePostModal.Initial | src/components/CreatePostModal.tsx:20-30 | The wizard opens at select with no files, the first image index, an empty caption, location and filter, the square aspect ratio and no upload in progress. |
| CreatePostModal.OnDrop | src/components/CreatePostModal.tsx:34-37 | A drop makes the file list exactly the dropped list and moves to crop; nothing else changes, not even the selected image index. |
| CreatePostModal.HandleBack | src/components/CreatePostModal.tsx:47-56 | Back moves exactly one step earlier in select < crop < filter < create and does nothing in select. Only leaving crop empties the file list. |
| CreatePostModal.HandleNext | src/components/CreatePostModal.tsx:105-111 | Next moves exactly one step later from crop or filter and changes nothing in select or create. |
| CreatePostModal.ToggleAspect | src/components/CreatePostModal.tsx:222-228 | The crop panel's button always changes the aspect ratio and nothing else. |
| CreatePostModal.PickImage | src/components/CreatePostModal.tsx:201-204 | A preview dot selects that image and changes nothing else. |
| CreatePostModal.EditCaption | src/components/CreatePostModal.tsx:288-294 | Typing in the caption textarea sets the caption, at most 2200 characters, and changes nothing else. |
| CreatePostModal.EditLocation | src/components/CreatePostModal.tsx:297-302 | Typing in the location input sets the location and changes nothing else. |
| CreatePostModal.ChooseFilter | src/components/CreatePostModal.tsx:264-267 | A filter tile makes its CSS class the chosen filter and changes nothing else. |
| CreatePostModal.HeaderFor | src/components/CreatePostModal.tsx:122-159 | The left button is Close exactly in select. Share appears exactly in create and is disabled exactly while uploading. Next is invisible exactly in select. The title is "Create new post" exactly in select and create. |
| CreatePostModal.ClickLeft | src/components/CreatePostModal.tsx:122-132 | The left button closes the modal in select and is Back in every other step. |
| CreatePostModal.SubmitPayload | src/components/CreatePostModal.tsx:77-84 | The form lists every file under `images` in order, then the caption. Location and filter follow only when non-empty, and the aspect ratio comes last. |
| Forms.ImageFields | src/components/CreatePostModal.tsx:78-80 | One `images` field per file, in list order. |
| Forms.ImageFieldsReadBack | src/components/CreatePostModal.tsx:78-80 | Reading the `images` fields back gives exactly the appended files, and they hold no text field. |
| Forms.OptionalFieldReadsBack | src/components/CreatePostModal.tsx:82-83 | A field appended only when its value is non-empty is absent from the form when the value is empty. |
| CreatePostModal.PayloadReadsBack | src/components/CreatePostModal.tsx:77-84 | Reading the posted form back gives the wizard's files in order, the caption and the aspect ratio. Location and filter read back only when non-empty. |
| CreatePostModal.EditsAreSubmitted | src/components/CreatePostModal.tsx:77-84 | After typing a caption and a location and choosing a filter, the posted form reads back the typed caption, the location and filter only when non-empty, and the unchanged files. |
| CreatePostModal.StartSubmit | src/components/CreatePostModal.tsx:73-75 | Starting the upload turns `uploading` on, which disables Share in create. |
| CreatePostModal.SubmitSettled | src/components/CreatePostModal.tsx:87-102 | After the request, `uploading` is off. The modal is closed exactly when the upload succeeded (or it was already closed). |
| CreatePostModal.ClickRight | src/components/CreatePostModal.tsx:142-158 | In create, an enabled Share only starts the upload and a disabled one changes nothing. Outside create the button acts as Next. |
| CreatePostModal.NextThenBack | src/components/CreatePostModal.tsx:47-111 | From crop or filter, Next then Back restores the exact starting state. |
| CreatePostModal.BackThenNext | src/components/CreatePostModal.tsx:47-111 | From filter or create, Back then Next restores the exact starting state. |
| CreatePostModal.ToggleTwice | src/components/CreatePostModal.tsx:222-228 | Toggling the aspect ratio twice is the identity. |
| CreatePostModal.OnlyCreateSubmits | src/components/CreatePostModal.tsx:142-158 | Only a click in the create step can start an upload. |
| CreatePostModal.EmptyDropLeavesNoPreview | src/components/CreatePostModal.tsx:34-37 | As written, a drop whose files were all rejected reaches crop with no file for the preview to show. |
| CreatePostModal.StaleIndexAfterRedrop | src/components/CreatePostModal.tsx:34-56 | As written, picking the third of three images, going back and dropping one image leaves the preview index past the end of the files. |
| CreatePostModal.OnDropChecked | src/components/CreatePostModal.tsx:34-37 | Corrected drop: an empty drop changes nothing, and a non-empty one starts at the first image. It keeps the preview defined. |
| CreatePostModal.ApplyKeepsGood | src/components/CreatePostModal.tsx:187-191 | With the corrected drop, every event keeps the invariant "no files in select, and a preview index inside the files after select". |
| CreatePostModal.RunKeepsGood | src/components/CreatePostModal.tsx:187-191 | Any sequence of events preserves that invariant. |
| CreatePostModal.ReachableHasPreview | src/components/CreatePostModal.tsx:187-191 | From the opened modal, every reachable state past select has a file at the preview index. |
| FeedPost.Init | src/components/FeedPost.tsx:57-68 | A card mounts liked exactly when the viewer is among the likers, with the server's like total, the first image, an empty draft, the heart hidden and no previous tap. It shows the last two comments, or all of them when there are fewer. |
| FeedPost.LikeRequest | src/components/FeedPost.tsx:72-78 | No request is sent when signed out. Otherwise the request is DELETE exactly when the post is liked. |
| FeedPost.HandleLike | src/components/FeedPost.tsx:72-87 | A successful like toggle flips the flag and moves the count one step in the same direction. Signed out or failed, nothing changes. |
| FeedPost.HandleSave | src/components/FeedPost.tsx:89-103 | The saved flag changes exactly when the user is signed in and the request succeeded. |
| FeedPost.LikeTwiceRestores | src/components/FeedPost.tsx:72-87 | Two successful like toggles restore both the flag and the count. |
| FeedPost.SaveTwiceRestores | src/components/FeedPost.tsx:89-103 | Two successful save toggles restore the flag. |
| FeedPost.HandleLikeTracksCount | src/components/FeedPost.tsx:57-87 | Whatever the outcomes, the count stays the mounted total adjusted by one in the direction of the like flag's change since mount. |
| FeedPost.HandleDoubleTap | src/components/FeedPost.tsx:128-140 | A double tap likes only within 300 ms of the previous tap and only an unliked post, adding one to the count when the like succeeds. It never unlikes, and it always records the tap time. |
| FeedPost.DoubleTapTracksCount | src/components/FeedPost.tsx:128-140 | A double tap keeps the count equal to the mounted total adjusted by the like flag's change since mount, as the like button does. |
| FeedPost.AnimationEnded | src/components/FeedPost.tsx:142-149 | The heart timer hides the animation and changes nothing else. |
| FeedPost.NextImage | src/components/FeedPost.tsx:151-155 | → advances one image unless at the last, where it does nothing. |
| FeedPost.PreviousImage | src/components/FeedPost.tsx:157-159 | ← goes back one image unless at the first, where it does nothing. |
| FeedPost.CarouselStaysInRange | src/components/FeedPost.tsx:151-159 | Both buttons keep the index on an existing image, and each undoes the other away from the ends. |
| Text.TrimEmptyIffBlank | src/components/FeedPost.tsx:107 | `!s.trim()` holds exactly when every character of `s` is JavaScript whitespace. |
| FeedPost.CommentRequest | src/components/FeedPost.tsx:105-116 | No comment is sent when signed out or when the draft is blank. Otherwise the untrimmed draft is sent. |
| FeedPost.HandleComment | src/components/FeedPost.tsx:105-126 | A created comment follows the previous last comment and the draft clears, so the window never exceeds two. A failure changes nothing. |
| Seqs.LastTwoWindow | src/components/FeedPost.tsx:121 | Keeping the last of the last two and appending is the same as keeping the last two of the extended list. |
| FeedPost.MountedWindowIsLastTwo | src/components/FeedPost.tsx:66-67 | A freshly mounted card's comment window is exactly the last two of the post's comments, or all of them when there are fewer. |
| FeedPost.CommentWindowIsLastTwo | src/components/FeedPost.tsx:66-121 | The recent window is always the last two of all comments the card knows of: the post's comments and those added through it. |
| StoryList.Loaded | src/components/StoryList.tsx:111-128 | After the fetch the strip holds the stories, with no story open and index 0. |
| StoryList.HandleStoryClick | src/components/StoryList.tsx:130-133 | Clicking story `i` opens that story at index `i`. |
| StoryList.HandleNext | src/components/StoryList.tsx:135-140 | Next opens the following story and its index, or does nothing on the last story. |
| StoryList.HandlePrevious | src/components/StoryList.tsx:142-147 | Previous opens the preceding story and its index, or does nothing on the first. |
| StoryList.Close | src/components/StoryList.tsx:195-198 | Closing clears the open story and keeps the index. |
| StoryList.TimerFired | src/components/StoryList.tsx:37-44 | After five seconds the viewer advances exactly as → does when there is a next story. Otherwise it closes exactly as the close button does, keeping the index. The story list never changes. |
| StoryList.Apply | src/components/StoryList.tsx:130-202 | Every click, arrow, close and timer keeps the open story equal to `stories[index]`, with the index inside the list. |
| StoryList.RunConsistent | src/components/StoryList.tsx:130-147 | Any sequence of events keeps that consistency. |
| StoryList.NextThenPrevious | src/components/StoryList.tsx:135-147 | Next then Previous from a story with a successor returns to the same story. |
| StoryList.PreviousThenNext | src/components/StoryList.tsx:135-147 | Previous then Next from a story with a predecessor returns to the same story. |
| StoryModal.Open | src/components/StoryModal.tsx:29-30 | The viewer opens at the first story with an empty bar. |
| StoryModal.Tick | src/components/StoryModal.tsx:33-45 | Below 100 a tick adds exactly one to the bar. At 100 it moves to the next story with an empty bar, or closes on the last story without resetting the bar. |
| StoryModal.HandlePrevious | src/components/StoryModal.tsx:51-56 | ← does nothing on the first story. Otherwise it goes back one story and empties the bar. |
| StoryModal.HandleNext | src/components/StoryModal.tsx:58-65 | → goes to the next story with an empty bar and changes nothing else, or closes on the last story. |
| StoryModal.ApplyKeepsValid | src/components/StoryModal.tsx:32-65 | Every tick and click keeps the bar in [0, 100] and the index on one of the user's stories. Only ← moves the index back. |
| StoryModal.RunKeepsValid | src/components/StoryModal.tsx:32-65 | From any valid state, every sequence of ticks and clicks stays valid. |
| StoryModal.TicksFill | src/components/StoryModal.tsx:33-45 | Ticks that do not reach the top only fill the bar. |
| StoryModal.StoryLasts101Ticks | src/components/StoryModal.tsx:33-46 | From an empty bar a story lasts exactly 101 ticks of the 30 ms interval before moving on or closing. |
| CreatePage.Empty | src/app/create/page.tsx:9-12 | The page starts with no image, an empty caption and location, and no upload. |
| CreatePage.HandleImageChange | src/app/create/page.tsx:15-18 | Chosen files are appended after the existing images in order. A null file list changes nothing. |
| CreatePage.WithoutIndex | src/app/create/page.tsx:21 | Filtering out one position shortens a list by one and shifts the later elements down. An out-of-range position changes nothing. |
| CreatePage.RemoveImage | src/app/create/page.tsx:20-22 | Removing image `i` splices it out and keeps the others in order. An out-of-range index changes nothing. |
| CreatePage.AddThenRemoveLast | src/app/create/page.tsx:15-22 | Removing the image just added restores the list. |
| CreatePage.NoCapInHandler | src/app/create/page.tsx:81-90 | "Add more" appears only below ten images, but one change event with several files can take the list past ten. |
| CreatePage.SubmitPayload | src/app/create/page.tsx:24-37 | Nothing is sent without an image. Otherwise the form has one `images` field per image in order, then the caption and the location, both always present. |
| CreatePage.PayloadReadsBack | src/app/create/page.tsx:32-37 | Reading the posted form back gives the images in order and the caption and location as typed, even when empty. |
| CreatePage.HandleSubmit | src/app/create/page.tsx:24-56 | Without images nothing happens. A successful post redirects home, and a failure keeps the form with the upload ended. |
| CreatePage.SubmitDisabled | src/app/create/page.tsx:153 | The submit button is enabled exactly when there is a form to post (at least one image) and no upload is in flight. |
| NotificationsPage.FollowRequests | src/app/notifications/page.tsx:79-81 | The requests tab holds exactly the notifications of type follow request. |
| NotificationsPage.OtherNotifications | src/app/notifications/page.tsx:82-84 | The All tab holds exactly the other notifications. |
| NotificationsPage.TabsPartition | src/app/notifications/page.tsx:79-84 | The two tabs partition the list: together they hold every notification as often as the list does, and each keeps the list's order. |
| NotificationsPage.HandleFollowRequest | src/app/notifications/page.tsx:58-77 | A successful accept or decline removes exactly the entries with that id. A failure leaves the list unchanged. |
| NotificationsPage.RemovalKeepsTheRest | src/app/notifications/page.tsx:73 | After a removal, every part of the list not about that id is what it was, in order. |
| NotificationsPage.RemovalOfAbsentId | src/app/notifications/page.tsx:73 | Removing an id not in the list changes nothing. |
| NotificationsPage.Badge | src/app/notifications/page.tsx:117-121 | The badge is shown exactly when there is a follow request, and it shows their number. |
| NotificationsPage.Message | src/app/notifications/page.tsx:159-165 | Each of the five other types has its own text, and a follow request has none. |
| NotificationsPage.MessageReadsBack | src/app/notifications/page.tsx:159-165 | The text determines the type: each type's text reads back as that type, so equal texts mean equal types. |
| NotificationsPage.TabRows | src/app/notifications/page.tsx:126-201 | The All tab never lists a follow request and every row it lists has a message. The requests tab lists only follow requests. |
| NotificationsPage.EmptyText | src/app/notifications/page.tsx:193-260 | Each tab shows its empty-state text exactly when it lists nothing. |
| NotificationsPage.Render | src/app/notifications/page.tsx:86-96 | Signed out renders nothing, and loading renders the spinner. Otherwise the page shows the chosen tab with its rows, the badge and the empty text. |
| NotificationsPage.Mounted | src/app/notifications/page.tsx:38-40 | The page mounts with no notifications, loading, on the All tab. |
| NotificationsPage.FetchSettled | src/app/notifications/page.tsx:42-56 | Loading always ends. A body replaces the list, and an error keeps it. |
| NotificationsPage.SettledShowsTab | src/app/notifications/page.tsx:42-96 | Once the fetch settles the page shows a tab, never the spinner. A failed fetch shows "No notifications yet". |
| DiscoverPeople.Visible | src/components/DiscoverPeople.tsx:72-74 | The visible users are exactly the suggestions whose id was not dismissed; their order is fixed by VisibleKeepsOrder. |
| DiscoverPeople.VisibleKeepsOrder | src/components/DiscoverPeople.tsx:72-74 | The visible users keep the fetched order: any filter that rejects the dismissed ids sees the same list in both. With nothing dismissed the visible list is the suggestions. |
| DiscoverPeople.FetchSettled | src/components/DiscoverPeople.tsx:32-46 | Loading always ends. A body replaces the suggestions, and an error keeps them. |
| DiscoverPeople.HandleDismiss | src/components/DiscoverPeople.tsx:68-70 | Dismissing records the id and forgets no earlier dismissal. |
| DiscoverPeople.DismissHidesOnlyThatUser | src/components/DiscoverPeople.tsx:68-74 | After a dismissal the visible list is the previous one without that user, order kept. |
| DiscoverPeople.DismissMonotone | src/components/DiscoverPeople.tsx:68-74 | A dismissed user stays hidden whatever is dismissed later, and dismissing twice shows the same grid as once. |
| DiscoverPeople.HandleFollow | src/components/DiscoverPeople.tsx:48-66 | A successful follow marks exactly the cards with that id as followed. Every other card and field is unchanged, and signed out or failed changes nothing. |
| DiscoverPeople.FollowIdempotent | src/components/DiscoverPeople.tsx:58-62 | Following the same user twice leaves the grid as following once. |
| DiscoverPeople.Avatars | src/components/DiscoverPeople.tsx:116 | At most three avatars are drawn: the first three mutual followers, or all when fewer. |
| DiscoverPeople.MutualLabel | src/components/DiscoverPeople.tsx:113-134 | The line appears exactly when the mutual count is positive, and names the first mutual follower. It throws when the count is positive but the list is empty. |
| DiscoverPeople.Suffix | src/components/DiscoverPeople.tsx:132-133 | " and {count - 1} others" is added exactly when the count exceeds one. |
| DiscoverPeople.SuffixCountReadsBack | src/components/DiscoverPeople.tsx:132-133 | The number in the suffix reads back as the count of other mutual followers. |
| DiscoverPeople.DismissAllHidesGrid | src/components/DiscoverPeople.tsx:72-76 | Dismissing every suggested user makes the grid render nothing. |
| Suggestions.Mounted | src/components/Suggestions.tsx:18-19 | The panel mounts empty and loading. |
| Suggestions.FetchSettled | src/components/Suggestions.tsx:21-36 | Only an ok body replaces the list. A non-ok status or an error keeps it, and loading ends either way. |
| Suggestions.Label | src/components/Suggestions.tsx:95-105 | "Suggested for you" appears exactly when there is no mutual follower. Otherwise the line is "Followed by " and the first follower's name, followed for several followers by " + ", the number of the others and " more". |
| Suggestions.LabelCountReadsBack | src/components/Suggestions.tsx:97-99 | With several mutual followers, the slot between " + " and " more" holds only digits, and they read back as the number of followers beyond the one named. |
| Suggestions.Labels | src/components/Suggestions.tsx:79-105 | One line per suggestion, in order. |
| Suggestions.Render | src/components/Suggestions.tsx:38-116 | Signed out shows nothing and loading shows the loading text. A non-empty list shows one label per suggestion, in order, and an empty one shows "No suggestions". |
| Suggestions.FailedFetchShowsEmpty | src/components/Suggestions.tsx:21-116 | A failed first fetch ends in "No suggestions", never a stuck loading text. |
| ArchivedPosts.Mounted | src/components/ArchivedPosts.tsx:24-26 | The grid mounts empty and loading, with no dropdown open. |
| ArchivedPosts.FetchSettled | src/components/ArchivedPosts.tsx:28-42 | Loading always ends. A body replaces the posts, and an error keeps them. |
| ArchivedPosts.Without | src/components/ArchivedPosts.tsx:52 | The filtered list holds exactly the posts with another id; their order is fixed by RemovalKeepsOthers and WithoutSplits. |
| ArchivedPosts.HandleUnarchive | src/components/ArchivedPosts.tsx:44-56 | A successful unarchive removes the post with that id. A failure changes nothing. |
| ArchivedPosts.HandleDelete | src/components/ArchivedPosts.tsx:58-78 | Without confirmation, or on failure, nothing changes. A confirmed successful delete removes that id. |
| ArchivedPosts.RemovalKeepsOthers | src/components/ArchivedPosts.tsx:44-78 | Unarchive and delete leave the rest of the grid in order: any filter that rejects the removed id sees the same list before and after. |
| ArchivedPosts.WithoutSplits | src/components/ArchivedPosts.tsx:52 | Removal works post by post: on a split grid it removes from each part and keeps the parts in order, and a single post goes exactly when it has the id. |
| ArchivedPosts.RemovalIdempotent | src/components/ArchivedPosts.tsx:52 | Removing twice is removing once, and removing an absent id changes nothing. |
| ArchivedPosts.ToggleOptions | src/components/ArchivedPosts.tsx:170-175 | A post's button closes its own open dropdown, or opens its dropdown in place of any other. |
| ArchivedPosts.ToggleTwice | src/components/ArchivedPosts.tsx:170-175 | Pressing the same button twice restores the previous state when that post's dropdown or none was open. |
| ArchivedPosts.ShowingOptions | src/components/ArchivedPosts.tsx:183 | A dropdown is drawn exactly for posts whose id is the open one. |
| ArchivedPosts.AtMostOneDropdown | src/components/ArchivedPosts.tsx:170-183 | With distinct post ids at most one dropdown is drawn, and none when no id is open. |
| ArchivedPosts.RemovedPostShowsNoDropdown | src/components/ArchivedPosts.tsx:183-186 | After unarchiving from its own dropdown, the open id stays set but no dropdown is drawn. |
| ArchivedPosts.Thumbnail | src/components/ArchivedPosts.tsx:117-128 | The thumbnail is the first image exactly when there is one, and the placeholder otherwise. |
| ArchivedPosts.Render | src/components/ArchivedPosts.tsx:80-103 | Signed out shows nothing and loading shows the spinner. "No archived posts" appears exactly when the loaded list is empty. |
| SavedCollections.Mounted | src/components/SavedCollections.tsx:28-33 | The page mounts loading, with the modal closed and an empty form. |
| SavedCollections.FetchSettled | src/components/SavedCollections.tsx:35-49 | Loading always ends. A body replaces the collections, and an error keeps them. |
| SavedCollections.OpenModal | src/components/SavedCollections.tsx:95-96 | "New collection" opens the modal and changes nothing else. |
| SavedCollections.CancelModal | src/components/SavedCollections.tsx:214-216 | Cancel closes the modal and keeps the draft. |
| SavedCollections.EditFields | src/components/SavedCollections.tsx:179-206 | Typing sets the three fields, within the inputs' 50- and 500-character limits, and leaves the list and the modal alone. |
| SavedCollections.CreateRequest | src/components/SavedCollections.tsx:51-66 | No request is sent when signed out or with a blank name. Otherwise the body carries the untrimmed name, the description and the private flag. |
| SavedCollections.HandleCreateCollection | src/components/SavedCollections.tsx:51-79 | Success appends the new collection after the existing ones, closes the modal and clears the form. A failure or no request changes nothing. |
| SavedCollections.CreateThenReopen | src/components/SavedCollections.tsx:68-75 | After a success the existing collections keep their positions, and a reopened modal has Create disabled. |
| SavedCollections.CancelKeepsDraft | src/components/SavedCollections.tsx:213-220 | Cancel then reopen shows the same draft, which would send the same body. |
| SavedCollections.FirstPostImage | src/components/SavedCollections.tsx:119 | The optional chain yields the first post's first image exactly when both exist. |
| SavedCollections.Cover | src/components/SavedCollections.tsx:112-128 | The cover is the cover image if truthy, else the first post's first image if truthy, else the placeholder. It is never an empty URL. |
| SavedCollections.CoverSources | src/components/SavedCollections.tsx:112-128 | The cover comes from one of the two sources. An empty collection without a cover image shows the placeholder. |
| SavedCollections.Render | src/components/SavedCollections.tsx:81-106 | Signed out renders nothing and loading shows the spinner. Otherwise the grid shows the collections and the modal state. |
| ActivityRoute.RecentLikes | src/app/api/users/activity/route.ts:17-52 | The first ten likes on the user's posts by someone else, in order, or all of them when there are fewer. |
| ActivityRoute.RecentComments | src/app/api/users/activity/route.ts:55-91 | The first ten comments on the user's posts by someone else, in order, or all of them when there are fewer. |
| ActivityRoute.RecentFollows | src/app/api/users/activity/route.ts:94-112 | The first ten follows of the user, in order, or all of them when there are fewer. |
| ActivityRoute.FromLike | src/app/api/users/activity/route.ts:117-123 | A like becomes a like activity with its id, time, user and post, and no content. |
| ActivityRoute.FromComment | src/app/api/users/activity/route.ts:124-131 | A comment becomes a comment activity with its id, time, user, post and content. |
| ActivityRoute.FromFollow | src/app/api/users/activity/route.ts:132-137 | A follow becomes a follow activity whose user is the follower, with no post and no content. |
| ActivityRoute.FollowIdReadsBack | src/app/api/users/activity/route.ts:134 | A follow's id is the follower id, a dash, and a number that reads back as the follow time. Follows by one follower at different times get different ids. |
| Text.IntRoundTrip | src/app/api/users/activity/route.ts:134 | Parsing an integer's decimal rendering gives the integer back. |
| Text.IntToStringInjective | src/app/api/users/activity/route.ts:134 | Two integers render the same exactly when they are equal. |
| ActivityRoute.Tagged | src/app/api/users/activity/route.ts:116-137 | The likes come first, then the comments, then the follows, each tagged in place. |
| ActivityRoute.Insert | src/app/api/users/activity/route.ts:138 | Inserting adds exactly the one element. |
| ActivityRoute.InsertKeepsOrder | src/app/api/users/activity/route.ts:138 | Inserting into a newest-first list keeps it newest first. |
| ActivityRoute.Sort | src/app/api/users/activity/route.ts:138 | The sorted list is a permutation of its input with no activity before a newer one. |
| ActivityRoute.InsertAtTime | src/app/api/users/activity/route.ts:138 | An inserted activity goes ahead of those with the same time, and the other times are untouched. |
| ActivityRoute.SortIsStable | src/app/api/users/activity/route.ts:138 | Activities with equal times keep their concatenation order. |
| ActivityRoute.Get | src/app/api/users/activity/route.ts:6-140 | Signed out gets 401. Otherwise the response is a permutation of the tagged likes, comments and follows, newest first, with at most 30 entries. |
| ActivityRoute.TaggedAboutOthers | src/app/api/users/activity/route.ts:116-137 | Tagging keeps who each activity is about: a like or comment stays by someone else, and a follow's user is a follower of the user. |
| ActivityRoute.NothingBySelf | src/app/api/users/activity/route.ts:14-138 | No like or comment in the response is by the user, and every follow activity names someone who follows the user. |
| StatsRoute.DaysBack | src/app/api/users/stats/route.ts:93 | Going back k whole days from any moment lands exactly k calendar days earlier. |
| StatsRoute.RecentPosts | src/app/api/users/stats/route.ts:63-82 | The query fetches exactly the user's posts created no earlier than 30 days before now. |
| StatsRoute.ChartDaysConsecutive | src/app/api/users/stats/route.ts:92-101 | The 30 entries are for 30 consecutive days, oldest first, the last being today. |
| StatsRoute.ChartIsConsecutive | src/app/api/users/stats/route.ts:92-106 | Entry i is the bucket of the day i days after the chart's first day. |
| StatsRoute.ConsecutivePosts | src/app/api/users/stats/route.ts:94-102 | Buckets for consecutive days together count exactly the posts in that span, with none counted twice. |
| StatsRoute.ConsecutiveSums | src/app/api/users/stats/route.ts:94-104 | Likewise, their like and comment totals add up to the totals over the posts in that span. |
| StatsRoute.ChartPosts | src/app/api/users/stats/route.ts:92-102 | The chart's post counts add up to the number of fetched posts dated on one of its 30 days. |
| StatsRoute.ChartSums | src/app/api/users/stats/route.ts:92-104 | The chart's like and comment entries add up to the totals over exactly the fetched posts on its 30 days. |
| StatsRoute.ChartTotals | src/app/api/users/stats/route.ts:63-102 | The chart counts at most the fetched posts, and at most all of the user's posts. |
| StatsRoute.ThirtyDaysAgoIsDropped | src/app/api/users/stats/route.ts:67-98 | A post exactly 30 days old is fetched but falls on no chart day. |
| StatsRoute.EngagementRate | src/app/api/users/stats/route.ts:86-89 | The rate is 0 with no posts. With posts and followers it is 100 × (likes + comments) / posts / followers. With posts and no followers it is Infinity, or NaN when there was no engagement. |
| StatsRoute.RateJson | src/app/api/users/stats/route.ts:108-116 | A finite rate is written as itself and a non-finite one as `null`. |
| StatsRoute.Get | src/app/api/users/stats/route.ts:6-116 | Signed out gets 401. Otherwise the response carries the user's post count, the four counted totals, the engagement rate as JSON writes it (0 with no posts, `null` exactly with posts and no followers), and the 30-day chart over the user's recent posts. |
| StatsRoute.ResponseChart | src/app/api/users/stats/route.ts:63-106 | The chart in the response counts exactly the user's posts since the cut-off that fall on one of its 30 days, and sums exactly their likes and comments. |

## Left out

- The zoom slider: its value is a float, and it is not part of the wizard state or the submitted form in this model.
- Rendering details: markup, CSS, images, links, the emoji picker and relative-time formatting. Only the choice of what is shown (spinner, empty state, rows, labels) is modelled.
- Database semantics. Each query is a filter over a table that is already in the query's order. The four count queries of the stats route are inputs.
- Errors thrown by `getServerSession` or Prisma, and the routes' 500 responses.
- A body without the expected field (`data.users`, `data.posts`, `data.collections`, `data.stories` or `data.notifications` undefined). Every fetch except the one in Suggestions skips the `response.ok` check, so an error body reaches these setters. Such a body would crash the render; the model treats each body as the expected list.
- Timers and intervals are events. Their scheduling, cancellation on unmount and React's batching of state updates are not modelled.
- StatsRoute.EngagementRate: the finite case is exact rational arithmetic, without the rounding of JavaScript's double-precision division.
- StatsRoute.Get: the chart's date strings are represented by UTC day numbers. A single `now` stands for the route's separate `Date.now()` calls, which could straddle midnight. `toISOString`'s RangeError for dates beyond ±8.64e15 ms is not modelled.
- Text.IntToString: it does not cover the exponent notation JavaScript uses for magnitudes of 10^21 and above. Follow times are far below that.
- CreatePostModal.SubmitPayload: the `zoom` field the form also carries is not modelled.
- Input length limits (`maxLength` 2200, 50 and 500) are counted in Dafny characters, that is Unicode scalar values. The browser counts UTF-16 code units, so the model admits some longer strings of astral characters, such as emoji, than the inputs deliver.
- The other components and routes of the application are not part of this model: feed and story selection, search, authentication, uploads, reels, profile and settings pages.

## Findings

| source | as written | input that shows it | evidently intended | confidence | as-written member | corrected member |
|---|---|---|---|---|---|---|
| src/components/CreatePostModal.tsx:34-37 | `onDrop` moves to crop whatever the accepted list holds. The dropzone calls it with an empty list when every dropped file is rejected, and the crop preview then reads `files[0]`, which is undefined. | Drop only non-image files on the select step. | An empty drop stays on select, so every step after select has a file to preview. | medium; not executed | CreatePostModal.EmptyDropLeavesNoPreview | CreatePostModal.OnDropChecked, CreatePostModal.ReachableHasPreview |
| src/components/CreatePostModal.tsx:34-56 | `currentImageIndex` is never reset. After Back empties the files, a new drop of fewer files leaves the preview index past the end. | Drop three images, click the third dot, click Back, drop one image. | A new drop starts at the first image. | high; not executed | CreatePostModal.StaleIndexAfterRedrop | CreatePostModal.OnDropChecked, CreatePostModal.RunKeepsGood |
