# TTLS star chat: a Dafny model of the client core

TTLS is a React client over a Supabase store. Every signed-in user is a star on a shared
night sky. The signed-in user's own star drifts, and each move is written back to the store.
Users can follow each other, and mutual follows are friends who can chat privately. Public
rooms can be created, joined, left and moderated by their owner.

This project models the logic of that client. The store's tables are sequences of rows in a
`Store` class. Every query is one method, and each method takes a flag saying whether the
store carried the call out. React state and refs become fields of one class per hook or
component, and each handler becomes a method. Each method's contract states the complete
new state. Timers, clocks, randomness and the user's confirmations are parameters.
Callbacks the code invokes are returned as results.

Modules, following the source:

- `Common`: JavaScript value semantics the code relies on:
  - `Slot` for object spread and `??`.
  - `Reply` for `data || []`.
  - ASCII `toLowerCase`, ECMAScript `trim`, `split('@')[0]` and `findIndex`.
  - `new Set` deduplication and a stable sort.
- `Users`, `Movement`, `UserMovement`, `App`, `Auth`: the star list and its realtime upsert,
  the drift interval, the sign-in/sign-out sequences and the one-time join message.
- `Messages`, `Chat`, `Friends`, `Profile`, `PrivateChat`, `LegacyPrivateChat`: public and
  private chat, friendship glows, the profile lists, and both revisions of the private chat
  popup.
- `RoomStore`, `Rooms`, `RoomList`, `CreateRoom`, `RoomChat`, `RoomMembers`, `Sky`: the
  three room tables, the room listing, joining, creating, chatting in, kicking from,
  banning from and transferring rooms, and the glue in the star field.
- `VirtualScroll`: the rendered window of a long list.

## Model

| member | source | states |
|---|---|---|
| Common.Lower | src/App.jsx:67-68 | lower-casing keeps the length and maps each character on its own |
| Common.LowerIdempotent | src/App.jsx:67-68 | lower-casing an already lower-cased key changes nothing, so comparing lower-cased emails is stable |
| Common.TrimShape | src/hooks/useChat.js:93 | `trim` yields a contiguous piece of the input that neither starts nor ends with white space |
| Common.TrimEmptyIffBlank | src/hooks/useChat.js:93 | `content.trim()` is empty exactly when every character is white space, which is the guard of every send path |
| Common.TrimIdempotent | src/components/ChatPanel.jsx:156 | trimming trimmed text again changes nothing |
| Common.Username | src/components/ChatPanel.jsx:168-170 | the shown name is the prefix of the email before its first '@', or the whole email when it has none |
| Common.FindIndex | src/App.jsx:68 | `findIndex` returns the first index satisfying the predicate, or none when no element does |
| Common.DedupSpec | src/components/ProfilePage.jsx:39 | `[...new Set(xs)]` has exactly the elements of `xs`, each once |
| Common.SortBy | src/hooks/useRooms.js:175 | an `.order(...)` result is sorted by its key and is a permutation of the input |
| Users.MergeSpec | src/App.jsx:71 | in `{...old, ...row}` every column the row carries wins and the others keep their value; merging the same row twice is merging it once |
| Users.IndexOfKey | src/hooks/useUsers.js:69-70 | the index found is the first entry whose lower-cased email equals the key; none means no entry has it |
| Users.UpsertSpec | src/hooks/useUsers.js:64-78 | a push without a row changes nothing; otherwise it merges into exactly the first entry with the same email and leaves all others, or it appends the row when the email is new |
| Users.UpsertIdempotent | src/App.jsx:63-76 | delivering the same realtime row twice leaves the list as delivering it once |
| Users.UpsertKeyCount | src/App.jsx:66-75 | a push never duplicates an email: a new email ends with exactly one entry, and a known one keeps its count |
| Users.Refreshed | src/hooks/useUsers.js:24-32 | a successful fetch replaces the list (null data gives []), and an error keeps it |
| Users.UsersHook.OnPositionChange | src/hooks/useUsers.js:64-78 | the hook's list becomes the upsert of the pushed row, and the following list is untouched |
| Users.UsersHook.FetchAllUsers | src/hooks/useUsers.js:24-32 | the list becomes the refreshed list, and the following list is untouched |
| Users.UsersHook.FetchFollowingList | src/hooks/useUsers.js:35-47 | with a user and a non-null reply, the list becomes the followee ids; without a user, on an error or for null data (the `map` throws) it is kept |
| Movement.DriftComponent | src/App.jsx:165-166 | a drift component drawn from `Math.random()` lies in [-scale/2, scale/2) |
| Movement.DriftBounds | src/hooks/useUserMovement.js:15-20 | the drift of the App revision lies in [-0.001, 0.001), and that of the hook revision in [-0.005, 0.005) |
| Movement.Wrap | src/App.jsx:177-180 | a wrapped coordinate lies in [0,1]; one in range is kept, one above 1 becomes 0 and one below 0 becomes 1 |
| Movement.TickMovesOnlyOwnEntry | src/App.jsx:171-193 | a tick changes only the entries of the signed-in, online email; in each it sets both coordinates from the `current ?? initial ?? 0.5` fallback plus the drift, wrapped, and changes no other column |
| Movement.TickWritesMatchStored | src/App.jsx:183-192 | one position write per moved entry, all for the signed-in email, each carrying exactly the coordinates stored in a moved entry |
| Movement.CountMoving | src/App.jsx:173 | the number of moved entries never exceeds the list length |
| Movement.Mover.Start | src/hooks/useUserMovement.js:9-22 | without a user no interval runs; otherwise a drift vector is drawn only for an email that has none, and the interval runs for that email |
| Movement.Mover.Stop | src/hooks/useUserMovement.js:43 | the cleanup clears the interval and keeps the drift table |
| Movement.Mover.OnInterval | src/hooks/useUserMovement.js:22-42 | with no interval nothing changes; otherwise the result is the tick of the running email, and every entry that does not move is returned unchanged |
| UserMovement.OnInterval | src/hooks/useUserMovement.js:23-41 | the shared list of the users hook takes the tick, and the writes sent through `updateUserPosition` are the tick's writes |
| App.Dimmed | src/App.jsx:134 | dimming keeps the list length |
| App.DimmedSpec | src/App.jsx:134 | dimming changes exactly the entries of the signing-out email, in exactly `is_online` and `luminosity`, leaves them offline, and applying it twice is applying it once |
| App.AppState.OnPositionChange | src/App.jsx:63-76 | the list becomes the upsert of the pushed row; the user, the sign-out flag and the request logs are unchanged |
| App.AppState.FetchAllUsers | src/App.jsx:91-99 | the list becomes the refreshed list; the user, the sign-out flag and the request logs are unchanged |
| App.AppState.OnAuthChange | src/App.jsx:41-50 | SIGNED_IN with a user records it, requests its position with the lower-cased email, refreshes the list when that succeeds, and starts its drift; SIGNED_OUT clears the user and the list and stops the drift; other events change nothing |
| App.AppState.OnInterval | src/App.jsx:170-195 | the list takes the tick of the running email, and its writes are returned; the user, the sign-out flag and the request logs are unchanged |
| App.AppState.BeginSignOut | src/App.jsx:127-134 | sign-out starts exactly when there is a user and none is in progress; it raises the flag and dims the user's entries; the user and the request logs are unchanged |
| App.AppState.FinishSignOut | src/App.jsx:136-154 | the offline request is sent for the email, the refresh is applied unless the call threw, the user is cleared, the entries are dimmed again and the flag is lowered, whatever failed; no position request is made |
| App.SignOutIsGuarded | src/App.jsx:128-153 | a second click during sign-out does nothing, and afterwards every entry of the user is offline |
| Auth.SystemMessage | src/hooks/useAuth.js:27-37 | a system row has sender 'system', the all-zero sender id, the given content and time, and type 'info' unless one is given |
| Auth.AuthHook.SendSystemMessage | src/hooks/useAuth.js:27-41 | the stored rows grow by the system row exactly when the insert succeeds |
| Auth.AuthHook.MarkUserOnline | src/hooks/useAuth.js:44-65 | the position request carries the lower-cased email; a failed call ends quietly; otherwise the refresh runs when one was supplied and the join message is sent only while the flag is down, after which the flag is up |
| Auth.AuthHook.MarkUserOfflineViaService | src/hooks/useAuth.js:68-79 | the offline request carries the email as given, and the refresh follows unless the call threw |
| Auth.JoinText | src/hooks/useAuth.js:59 | the announcement ends with " joined the chat" and, for a user with an email, begins with it |
| Auth.JoinTextNamesUser | src/hooks/useAuth.js:59 | two users with emails get the same announcement exactly when their emails agree |
| Auth.JoinAnnouncedAtMostOnce | src/hooks/useAuth.js:58-61 | of two successive sign-ins at most one stores a join message, and none does once the flag is up |
| Chat.BucketKey | src/hooks/useChat.js:56-57 | a private message belongs to no bucket unless the user sent or received it; otherwise to the other party's bucket, between the user and that party |
| Chat.AddPrivate | src/hooks/useChat.js:59-62 | a message goes at the end of its bucket (created when missing), and every other bucket is unchanged |
| Chat.AddPrivateKeepsWellBucketed | src/hooks/useChat.js:56-62 | after a push every bucket still holds only messages between the user and the bucket's key |
| Chat.PublicSend | src/hooks/useChat.js:92-108 | nothing is sent without a user or for blank content; otherwise the row carries the user's email and id, the trimmed content and type 'user' |
| Chat.PrivateSend | src/hooks/useChat.js:110-125 | nothing is sent without a user or for blank content; otherwise the row goes from the user to the friend with the trimmed content |
| Chat.SentPublicIsShown | src/hooks/useChat.js:24-29 | a sent public message echoed at its send time passes the five-minute window |
| Chat.SentPrivateLandsWithFriend | src/hooks/useChat.js:56-62 | a sent private message echoed back lands in the sender's bucket for that friend |
| Chat.Cleaned | src/hooks/useChat.js:79-83 | the cleanup keeps exactly the messages created at or after one hour before now |
| Chat.CleanedIdempotent | src/hooks/useChat.js:77-87 | a second cleanup at the same instant deletes nothing more |
| Chat.CleanupKeepsRecent | src/hooks/useChat.js:25-27 | the cleanup never deletes a message the five-minute window would still show |
| Chat.ChatTable.DeleteOlderThanHour | src/hooks/useChat.js:80-83 | on success the table becomes its cleaned rows, and on failure it is kept |
| Chat.ChatHook.OnPublicInsert | src/hooks/useChat.js:22-29 | with a user, a pushed public message is appended exactly when it is less than five minutes old; the private buckets are untouched |
| Chat.ChatHook.OnPrivateInsert | src/hooks/useChat.js:52-63 | the buckets take the push, and stay each to their own pair of users |
| Chat.ChatHook.Cleanup | src/hooks/useChat.js:74-90 | the timer runs the delete only when there is a user |
| Friends.WithoutTimestamp | src/hooks/useFriends.js:30-32 | expiry keeps exactly the glows with another arrival time |
| Friends.ExpireUndoesAppend | src/hooks/useFriends.js:25-33 | when no other glow arrived in the same millisecond, the expiry restores the list from before the event |
| Friends.WithoutAbsentTimestamp | src/hooks/useFriends.js:30-32 | an expiry with no matching glow changes nothing |
| Friends.BetweenRows | src/hooks/useFriends.js:86-89 | the conversation query returns exactly the stored messages between the two users, in either direction |
| Friends.ConversationSpec | src/hooks/useFriends.js:86-97 | a loaded bucket is a permutation of the conversation rows, holds exactly the messages between the two users, and is ordered by creation time |
| Friends.LoadKeepsWellBucketed | src/hooks/useFriends.js:94-97 | replacing a bucket with a loaded conversation keeps every bucket to its own pair of users |
| Friends.FriendIds | src/hooks/useFriends.js:69-73 | a conversation fetch follows for every friend of the result, in order |
| Friends.FriendsHook.FetchFriends | src/hooks/useFriends.js:48-81 | without a user or on an error nothing changes; otherwise the friend list becomes the result ([] for null) and every friend's conversation is fetched |
| Friends.FriendsHook.OnFriendshipEvent | src/hooks/useFriends.js:22-37 | the pair is appended with its arrival time, then the friends are fetched again |
| Friends.FriendsHook.ExpireFriendship | src/hooks/useFriends.js:29-33 | the timeout removes every glow with that arrival time |
| Friends.FriendsHook.FetchPrivateMessages | src/hooks/useFriends.js:83-101 | without a user or on an error the buckets are kept; otherwise only that friend's bucket becomes the loaded conversation, and the buckets stay each to their own pair |
| Profile.Followees | src/components/ProfilePage.jsx:15-21 | the followees are exactly the users `me` follows |
| Profile.Followers | src/components/ProfilePage.jsx:24-30 | the followers are exactly the users who follow `me` |
| Profile.MutualIds | src/components/ProfilePage.jsx:33 | the mutual ids are exactly the followees that are also followers |
| Profile.FriendSymmetric | src/components/ProfilePage.jsx:33 | friendship is following both ways, so `b` is a friend of `a` exactly when `a` is a friend of `b` |
| Profile.LookupIdsSpec | src/components/ProfilePage.jsx:39 | the ids looked up are exactly the followees, each once |
| Profile.WithIds | src/components/ProfilePage.jsx:42-47 | the filter keeps exactly the profiles whose id is listed |
| Profile.Load | src/components/ProfilePage.jsx:10-54 | without a user nothing happens; any query error keeps both lists; otherwise `following` holds exactly the fetched followee profiles and `friends` exactly the mutual ones; loading ends past the guard |
| Profile.FriendsWithinFollowing | src/components/ProfilePage.jsx:42-47 | every friend shown is also among the followed profiles |
| PrivateChat.UniqueFrom | src/components/chat/PrivateChatPopup.jsx:23-32 | the filter keeps only friends from the list whose id has not been seen, and never grows the list |
| PrivateChat.UniqueFromIds | src/components/chat/PrivateChatPopup.jsx:23-32 | the ids of the distinct friends are the friend ids with repeats removed |
| PrivateChat.UniqueFriendsSpec | src/components/chat/PrivateChatPopup.jsx:23-32 | every friend id gets exactly one tab |
| PrivateChat.UnreadIn | src/components/chat/PrivateChatPopup.jsx:35-40 | the unread messages are exactly those to the user not yet read |
| PrivateChat.PushedMessageUnread | src/components/chat/PrivateChatPopup.jsx:35-40 | a message the user sends never adds to an unread count, and an unread message received adds one, to its sender's tab only |
| PrivateChat.TotalUnreadZero | src/components/chat/PrivateChatPopup.jsx:247-249 | the total badge is zero exactly when no listed friend has an unread message |
| PrivateChat.NextTab | src/components/chat/PrivateChatPopup.jsx:232-238 | there is no next tab exactly when every friend has the closed id; otherwise the next tab is another listed friend |
| PrivateChat.NextTabIgnoresRepeats | src/components/chat/PrivateChatPopup.jsx:232 | removing repeated friends does not change the tab a close moves to |
| PrivateChat.ShouldShowScrollButton | src/components/chat/PrivateChatPopup.jsx:252-260 | the button shows exactly when a container is mounted and its view is more than 200 pixels above the bottom |
| PrivateChat.ButtonExcludesNearBottom | src/components/chat/PrivateChatPopup.jsx:102-103 | while the button shows, the view is not within the 100-pixel auto-scroll distance |
| PrivateChat.SendGrowsCount | src/components/chat/PrivateChatPopup.jsx:108-110 | a message the user sends raises the friend's message count by one, so the next scroll check sees new messages |
| PrivateChat.PopupSendReachesFriend | src/components/chat/PrivateChatPopup.jsx:201-204 | the popup's trimmed text is sent unchanged, from the user to the tab's friend |
| PrivateChat.ChatPopup.MarkAsRead | src/components/chat/PrivateChatPopup.jsx:43-50 | the callback runs exactly when the friend has unread messages and no marking is in progress, and the friend is then marked in progress |
| PrivateChat.ChatPopup.FinishMarking | src/components/chat/PrivateChatPopup.jsx:59-65 | only that friend leaves the in-progress set |
| PrivateChat.ChatPopup.SetUserScrolling | src/components/chat/PrivateChatPopup.jsx:71-85 | only the manual-scrolling flag changes |
| PrivateChat.ChatPopup.SmartScroll | src/components/chat/PrivateChatPopup.jsx:88-123 | nothing happens unless the tab is active, mounted and not being scrolled; then it scrolls exactly when near the bottom or the bucket grew, and records the count |
| PrivateChat.ChatPopup.OnTabOrMessagesChange | src/components/chat/PrivateChatPopup.jsx:149-156 | after every tab or bucket change, following the smart scroll, an active tab resets manual scrolling and records that tab's current count |
| PrivateChat.ChatPopup.HandleSendMessage | src/components/chat/PrivateChatPopup.jsx:201-209 | blank input changes nothing; otherwise the trimmed text is sent, only that input is cleared, and scrolling is reset |
| PrivateChat.ChatPopup.HandleInputChange | src/components/chat/PrivateChatPopup.jsx:211-213 | only that friend's input changes |
| PrivateChat.ChatPopup.OpenChat | src/components/chat/PrivateChatPopup.jsx:222-227 | the tab becomes active, the popup opens and scrolling is reset |
| PrivateChat.ChatPopup.ToggleOpen | src/components/chat/PrivateChatPopup.jsx:266 | the friends button flips the popup |
| PrivateChat.ChatPopup.CloseTab | src/components/chat/PrivateChatPopup.jsx:229-240 | closing an inactive tab changes nothing; closing the active one moves to the first other distinct friend, or clears the tab and closes the popup |
| LegacyPrivateChat.UnreadCountCountsIncomingOnly | src/components/PrivateChatPopup.jsx:72-77 | the unread count counts only unread messages to the user, never more than the bucket holds |
| LegacyPrivateChat.LegacyChatPopup.HandleSendMessage | src/components/PrivateChatPopup.jsx:34-40 | blank input changes nothing; otherwise the trimmed text is sent and only that input is cleared |
| LegacyPrivateChat.LegacyChatPopup.HandleInputChange | src/components/PrivateChatPopup.jsx:42-44 | only that friend's input changes |
| LegacyPrivateChat.LegacyChatPopup.OpenChat | src/components/PrivateChatPopup.jsx:53-56 | the tab becomes active and the popup opens |
| LegacyPrivateChat.LegacyChatPopup.CloseTab | src/components/PrivateChatPopup.jsx:58-70 | closing the active tab over the raw friend list settles on the same tab as the later revision, which removes repeats first |
| RoomStore.WithoutUserSpec | src/components/RoomListPanel.jsx:84-87 | the leave step removes every row of the user and keeps every other user's rows in order |
| RoomStore.WithoutMemberSpec | src/components/ChatPanel.jsx:178-182 | a kick removes exactly the user's rows in that room |
| RoomStore.WithoutMemberIdempotent | src/components/RoomMembersPanel.jsx:78-79 | repeating the same kick changes nothing more |
| RoomStore.MembersOf | src/hooks/useRooms.js:225-228 | the room's member query returns exactly the rows of that room |
| RoomStore.RowsOf | src/hooks/useRooms.js:136-139 | one user's rows are exactly the rows with that user id |
| RoomStore.RoomsOfUser | src/hooks/useRooms.js:136-139 | the room ids of a user, one per row of the user, in order |
| RoomStore.WithSlots | src/hooks/useRooms.js:239-242 | only the room with that id gets the new slot count |
| RoomStore.WithOwner | src/components/ChatPanel.jsx:198-201 | only the room with that id gets the new owner |
| RoomStore.WithoutBan | src/components/RoomMembersPanel.jsx:95-98 | unbanning removes exactly the ban with that id |
| RoomStore.LeaveThenJoin | src/components/RoomListPanel.jsx:84-99 | after a successful leave and join the user has exactly one membership row, the new one |
| RoomStore.Store.DeleteMembershipsOf | src/components/RoomListPanel.jsx:84-87 | on success the user's rows go, and on failure nothing changes |
| RoomStore.Store.DeleteMembership | src/components/ChatPanel.jsx:178-182 | on success the user's rows in the room go, and on failure nothing changes |
| RoomStore.Store.InsertMembership | src/components/RoomListPanel.jsx:94-99 | on success one row with a fresh id is appended |
| RoomStore.Store.SelectMembersOf | src/hooks/useRooms.js:225-233 | the room's rows, or none on an error |
| RoomStore.Store.SelectRoomsOf | src/hooks/useRooms.js:136-145 | the user's room ids, or none on an error |
| RoomStore.Store.UpdateSlots | src/hooks/useRooms.js:239-242 | on success only that room's slot count is written |
| RoomStore.Store.UpdateOwner | src/components/ChatPanel.jsx:198-201 | on success only that room's owner is written |
| RoomStore.Store.InsertRoom | src/components/rooms/CreateRoomPopup.jsx:38-49 | on success the row is stored with a fresh id and returned |
| RoomStore.Store.InsertBan | src/components/RoomMembersPanel.jsx:57-64 | on success one permanent ban with a fresh id is appended |
| RoomStore.Store.DeleteBan | src/components/RoomMembersPanel.jsx:95-98 | on success exactly that ban goes |
| Rooms.OwnerRows | src/hooks/useRooms.js:185-189 | the owner lookup sees exactly the position rows of that user |
| Rooms.CreatorEmail | src/hooks/useRooms.js:185-200 | the creator email is the owner's non-empty email when exactly one row matches and the lookup succeeded, and 'Unknown' otherwise |
| Rooms.PublicRooms | src/hooks/useRooms.js:171-174 | the listing query keeps exactly the public rooms |
| Rooms.ListingSpec | src/hooks/useRooms.js:171-206 | the listing is a permutation of the public rooms, newest first, each with its creator email or 'Unknown' |
| Rooms.UserToCheck | src/hooks/useRooms.js:125-126 | the given user is checked, and the hook's user when none is given |
| Rooms.FirstRoom | src/hooks/useRooms.js:149-157 | the current room is the room of the user's first row, and none exactly when the user has no row |
| Rooms.RoomsHook.FetchRooms | src/hooks/useRooms.js:166-213 | on success the listing is stored and returned; on an error [] is returned and the rooms are kept |
| Rooms.RoomsHook.OnOwnMembershipEvent | src/hooks/useRooms.js:30-53 | INSERT makes its room current; DELETE clears it and passes the old room to the installed clearer; every event refreshes the listing |
| Rooms.RoomsHook.FetchCurrentUserRoom | src/hooks/useRooms.js:125-164 | the stored value is the returned value: none without a user or on an error, else the first room of the user |
| Rooms.RoomsHook.UpdateRoomSlots | src/hooks/useRooms.js:215-253 | with a room id and both calls successful, that room's slot count becomes its number of member rows; nothing else is written |
| RoomList.EmbeddedEmail | src/components/RoomListPanel.jsx:20-25 | the embedded creator email is that of the owner's position row, and none when there is no row or its email is null |
| RoomList.PanelListing | src/components/RoomListPanel.jsx:18-32 | the panel lists the public rooms newest first, each with its embedded owner email |
| RoomList.CreatorLabel | src/components/RoomListPanel.jsx:282 | the creator line shows the email, or 'Unknown' when it is missing or empty |
| RoomList.DisabledUnlessJoinLabel | src/components/RoomListPanel.jsx:250-295 | the button can be pressed exactly when it reads "Join", and never for a full room |
| RoomList.WithoutRoom | src/components/RoomListPanel.jsx:180 | the DELETE handler keeps exactly the rooms with another id |
| RoomList.InsertThenDelete | src/components/RoomListPanel.jsx:168-180 | deleting a room just inserted with a new id restores the list |
| RoomList.RoomListPanel.FetchRooms | src/components/RoomListPanel.jsx:15-38 | on success the panel listing is stored, on an error the rooms are kept, and loading ends |
| RoomList.RoomListPanel.FetchCurrentUserRoom | src/components/RoomListPanel.jsx:41-71 | without a user nothing changes; on an error the room is kept; otherwise it becomes the user's first room |
| RoomList.RoomListPanel.JoinRoom | src/components/RoomListPanel.jsx:76-149 | without a user nothing changes; a successful leave removes all the user's rows; a failed insert stops with the current room unchanged; otherwise the room becomes current, only it is recounted, the listing is refreshed, and after a successful leave the user has exactly one row; the rooms' loading flag falls exactly when the listing is refetched |
| RoomList.RoomListPanel.OnRoomInserted | src/components/RoomListPanel.jsx:166-169 | the new room goes first; every other field is unchanged |
| RoomList.RoomListPanel.OnRoomDeleted | src/components/RoomListPanel.jsx:178-181 | every listed room with that id goes; every other field is unchanged |
| RoomList.RoomListPanel.OnOwnMembershipEvent | src/components/RoomListPanel.jsx:191-200 | INSERT makes its room current, DELETE clears it, and every event refreshes the listing, which ends the rooms' loading |
| CreateRoom.NewRoomRow | src/components/rooms/CreateRoomPopup.jsx:40-47 | the new room has the trimmed name and description, the user as owner, the chosen limit, one occupant, and is public |
| CreateRoom.CreateSteps | src/components/rooms/CreateRoomPopup.jsx:24-72 | a failed leave does not stop creation; a failed insert adds no membership; after a stored room the creator's membership is added when its insert succeeds |
| CreateRoom.CreateRoomPopup.constructor | src/components/rooms/CreateRoomPopup.jsx:6-9 | the form starts empty with a limit of 10 |
| CreateRoom.CreateRoomPopup.SetMaxSlots | src/components/rooms/CreateRoomPopup.jsx:190-193 | the slider keeps the limit between 2 and 20 |
| CreateRoom.CreateRoomPopup.HandleSubmit | src/components/rooms/CreateRoomPopup.jsx:12-87 | a blank name or a submission in progress does nothing; without a user nothing is written; otherwise the create steps run and `isCreating` is down after every outcome |
| RoomChat.MessagesOf | src/components/ChatPanel.jsx:108-111 | the message query returns exactly the room's messages |
| RoomChat.RoomHistorySpec | src/components/ChatPanel.jsx:108-115 | the loaded history is a permutation of the room's messages, oldest first |
| RoomChat.MergeRoomUpdate | src/components/ChatPanel.jsx:86 | a pushed room row replaces every column, and only the attached creator email survives |
| RoomChat.MergeRoomUpdateIdempotent | src/components/ChatPanel.jsx:86 | receiving the same update twice is receiving it once |
| RoomChat.RoomsWithId | src/components/ChatPanel.jsx:19-23 | the refresh sees exactly the rooms with that id |
| RoomChat.PlacementOf | src/components/ChatPanel.jsx:305-335 | a row whose type is not 'user' is centred as a system message; any other row is on the right exactly when it is the reader's own |
| RoomChat.OwnMessageSpec | src/components/ChatPanel.jsx:327 | a message without a sender email is nobody's own, a reader without a user or an email owns none, and two readers who own the same message share its email |
| RoomChat.KickStart | src/components/ChatPanel.jsx:175 | the corrected start never throws, and proceeds exactly with a room and a confirmation |
| RoomChat.KickGuardUnreachable | src/components/ChatPanel.jsx:174-175 | as written, a kick without a room throws before its guard; with a room it agrees with the corrected start |
| RoomChat.ChatPanel.LoadRoomMessages | src/components/ChatPanel.jsx:98-120 | without a room the list is emptied; a successful fetch stores the room history; an error keeps the list |
| RoomChat.ChatPanel.OnRoomMessage | src/components/ChatPanel.jsx:135-138 | a pushed message goes at the end |
| RoomChat.ChatPanel.OnRoomUpdated | src/components/ChatPanel.jsx:83-87 | the current room becomes the merged update |
| RoomChat.ChatPanel.RefreshRoomData | src/components/ChatPanel.jsx:14-32 | with exactly one matching row the bare row replaces the current room; otherwise it is kept |
| RoomChat.ChatPanel.HandleSubmit | src/components/ChatPanel.jsx:151-159 | blank text or no room sends nothing; otherwise the trimmed text goes to the sender when one was passed and the text is cleared |
| RoomChat.ChatPanel.HandleKickUser | src/components/ChatPanel.jsx:172-192 | only the user's rows in this room are deleted, and only after the corrected guard passes and the delete succeeds |
| RoomChat.ChatPanel.HandleTransferOwnership | src/components/ChatPanel.jsx:194-217 | after confirmation only this room's owner is written, and a reload follows a success |
| RoomChat.TransferKeepsSlots | src/components/ChatPanel.jsx:198-201 | a transfer leaves every room's id, slots, capacity and visibility unchanged |
| RoomMembers.PermanentBans | src/components/RoomMembersPanel.jsx:15-27 | the ban query returns exactly the room's permanent bans |
| RoomMembers.ShowActionsSpec | src/components/RoomMembersPanel.jsx:187-384 | the controls appear exactly for the room's owner, on every member row but the owner's own |
| RoomMembers.BansAccumulate | src/components/RoomMembersPanel.jsx:57-64 | banning the same member twice adds two permanent bans for that room |
| RoomMembers.RoomMembersPanel.FetchRoomMembers | src/components/RoomMembersPanel.jsx:119-144 | with a room and a successful query the members are the room's rows; otherwise they are kept |
| RoomMembers.RoomMembersPanel.FetchBannedUsers | src/components/RoomMembersPanel.jsx:11-34 | with a room and a successful query the list is the room's permanent bans; otherwise it is kept |
| RoomMembers.RoomMembersPanel.HandleBanUser | src/components/RoomMembersPanel.jsx:38-88 | the kick removes only the target's rows in the room; a failed kick stores no ban; without a user the handler throws after the kick; otherwise one ban naming the room, target, owner and reason is stored when its insert succeeds, and after a ban the lists are refreshed and loading ends; on every other outcome the panel's state is unchanged |
| RoomMembers.RoomMembersPanel.HandleUnbanUser | src/components/RoomMembersPanel.jsx:91-109 | after confirmation and a successful delete exactly that ban goes and the list is refreshed; memberships, the member list and the loading flag are untouched |
| Sky.CurrentUserStarIgnoresCase | src/components/ui/NightSky.jsx:87 | the own-star match ignores letter case on both sides |
| Sky.ChatRoom | src/components/ui/NightSky.jsx:212 | the chat panel gets the first listed room with the current id, and none without a current room or a match |
| Sky.StatusLabel | src/components/ui/NightSky.jsx:198 | the status line shows only with a current room: its name, or 'a room' when it is unlisted or unnamed |
| Sky.SendRoomMessage | src/components/ui/NightSky.jsx:213-226 | nothing is sent without a user, a current room or non-blank content; otherwise the row goes to the current room from the user with the trimmed content and type 'user' |
| Sky.SubmitReachesRoom | src/components/ui/NightSky.jsx:213-226 | what the chat panel submits reaches the room unchanged, is not a system message, and, for a user with an email, shows as that user's own |
| Sky.IsFollowingSpec | src/components/ui/NightSky.jsx:90 | a star is drawn as followed exactly when its `user_id` is an entry of the following list, whatever the rest of the row holds |
| Sky.SentMessagePlacement | src/components/ChatPanel.jsx:305-335 | a sent message is drawn on the right for its sender and on the left for any reader with another email or none, never centred |
| VirtualScroll.Ceil | src/hooks/useVirtualScroll.js:15 | `Math.ceil` gives the least integer not below its argument |
| VirtualScroll.Recalculate | src/hooks/useVirtualScroll.js:10-20 | the computed range starts at 0 or later and ends at the list length or earlier |
| VirtualScroll.RangeCoversScreen | src/hooks/useVirtualScroll.js:14-19 | every row that overlaps the viewport lies inside the computed range |
| VirtualScroll.JsSlice | src/hooks/useVirtualScroll.js:31 | `slice` returns the in-range part of the list, nothing for an empty range, and the suffix when the end is past the list |
| VirtualScroll.Render | src/hooks/useVirtualScroll.js:30-34 | the view starts at the range start, and its total height is the row count times the row height |
| VirtualScroll.InitialView | src/hooks/useVirtualScroll.js:5 | before measuring, the first 50 rows (or all of a shorter list) are rendered from index 0 |
| VirtualScroll.MeasuredView | src/hooks/useVirtualScroll.js:29-34 | after a measurement each rendered row is the row at its own index counted from `startIndex`, and an empty range renders nothing |

## Left out

- The realtime channels and their lifetimes are not modelled. Each handler is a method the
  caller invokes in delivery order. Interleavings of concurrent handlers and awaited
  calls are not captured.
- The `useRooms` debounce is not modelled, and neither are the timers (movement interval,
  cleanup, glow expiry, mark-as-read delay, scroll timeout). Each timer's callback is a
  method, and times are integer milliseconds passed in.
- The bodies of the store procedures `get_or_create_user_position`, `update_user_position`,
  `mark_user_offline_by_email`, `get_mutual_friends` and `reset_user_positions` are not part
  of this model. Calls to them are recorded or passed in as replies.
- The store is not modelled as enforcing capacity, bans, foreign keys or uniqueness. The
  client never checks them, and the model shows what the client does without them.
- Row ids are consecutive naturals starting at 1, where the store uses uuids and its own
  sequences.
- Positions and scroll metrics are real numbers, not IEEE doubles, so rounding is not
  modelled.
- `toLowerCase` is modelled on ASCII letters only. `trim` uses ECMAScript's white-space set.
- Rendering, styles, `alert`, `console` output, `window.location.reload` and
  `scrollIntoView` are not modelled. A scheduled reload or scroll is returned as a flag.
- The initial `getSession` path of src/App.jsx:31-39 and the `loading` flag are not
  modelled. That path does what `App.AppState.OnAuthChange` does for `SIGNED_IN`.
- `onResetPositions` (src/App.jsx:210) and the follow action are not modelled. Both only
  call store procedures.
- The popup's `onMarkMessagesAsRead` callback only reports that it ran. Its effect on the
  store is not part of this model.
- The Enter-key handlers, `handleInputFocus`, `handleChatAreaClick`,
  `handleScrollToBottom` and the mark-as-read effects are not modelled. Each only calls an
  operation that is modelled (send, mark as read, clear scrolling).
- `getUsername` on a null email (it throws), `formatTime` and the member labels of
  src/components/RoomMembersPanel.jsx are display-only.
- The rooms hook's `window.clearRoomMessages` call is returned as the room id it receives.
- The columns a select embeds from `user_positions` (member emails, ban emails) are not
  modelled. Rows carry their own columns only.
- Sorting is stable insertion sort. Ties in `created_at` keep table order, which the store
  does not promise.
- src/TestApp.jsx, src/components/NightSky.jsx and the other files outside the core are
  not part of this model.
- Movement.Mover.Start: a drift vector is drawn from two random values in [0, 1) passed in
  as parameters.
- VirtualScroll.Recalculate: requires a positive row height. With a zero or negative
  height the source divides by zero or reverses the range, and that is not modelled.
- VirtualScroll.MeasuredView: covers only non-negative scroll positions and heights. With
  a negative `scrollTop`, `slice` counts a negative end from the back of the list, and
  that case is not stated.
- Users.MergeSpec: names only the `email`, `is_online` and coordinate columns. The other
  columns merge the same way but are not listed one by one.
- Friends.FriendsHook: the user is fixed for the hook's life. The friendship subscription
  is made once with no dependencies (src/hooks/useFriends.js:16-46), so its handler keeps
  the first render's user; a hook whose user changes later is not modelled.
- PrivateChat.ChatPopup.MarkAsRead: takes the buckets as a parameter, as the popup reads
  its `privateMessages` prop, rather than following prop changes.

## Findings

| source | as written | input that shows it | evidently intended | confidence | as-written member | corrected member |
|---|---|---|---|---|---|---|
| src/components/ChatPanel.jsx:174-175 | `handleKickUser` logs `room.id` on the line before its `!room` guard | a kick with `room` null throws a `TypeError` instead of returning at the guard; the guard is dead code, since the panel returns its no-room view at ChatPanel.jsx:220 and offers no kick without a room | without a room the handler returns quietly, as its guard says | not executed; latent, no caller reaches it | RoomChat.KickGuardUnreachable | RoomChat.KickStart |
