# AI_chat: a verified model of the chat client's core

AI_chat is a desktop chat client built on Electron and React. The user keeps a roster
of AI "contacts". Each contact has a name, an avatar and a persona (a system prompt).
The user chats with each contact through a chat-completion provider (Zhipu or
SiliconFlow).

This project models the two parts of the program that hold its logic:

- The renderer component `src/App.jsx`. It builds the provider request from the
  conversation and folds the provider's answer into a reply. It also runs the send,
  save-contact, delete-contact, clear and load handlers over its state: the roster,
  the per-contact message logs, the active contact and the provider settings.
- The main process `electron.cjs`. Its IPC handlers persist per-contact logs, the
  configuration, the roster and avatar images below one data directory.

Modules, one file each:

- `Wrappers`: `Option`.
- `Text`: the JavaScript runtime behaviour the core relies on.
  - `String.prototype.trim` and its white-space set.
  - The decimal text of a numeric id. This is both a contact's property key and its
    directory name.
  - Node's POSIX `path.extname`.
- `Records`: the message, contact and configuration documents, and the property key of
  a contact.
- `Store`: the main process's handlers. `DataStore` is a class over a map from paths
  below the data directory to stored documents, plus whether the `avatars` directory
  exists. Load handlers are specified by functions of that map (`LogIn`, `ConfigIn`,
  `RosterIn`, `AvatarIn`).
- `Completion`: how `callAI` windows the history, maps it to roles, places the persona
  and the utterance, and turns the provider's answer into reply text.
- `Roster`: the `map`/`filter`/`find` expressions the handlers apply to the contact list.
- `Settings`: the component's initial settings, `loadSettings`'s per-field fallbacks and
  the document `saveSettings` writes.
- `App`: the component as a class `ChatApp`. Its fields are `contacts`, `messages`,
  `activeContact` and `settings`. Its handlers are methods that persist through a
  `Store.DataStore`.

Calls are taken one at a time: each IPC request is handled completely before the next
statement of a handler runs. The effect that reloads the active contact's log whenever
the selection changes is modelled as `ChatApp.SetActiveContact`. Every place that changes
the selection goes through it: the mount, a click, loadContacts and handleDeleteContact.

Inputs the program takes from outside become parameters:

- the provider's answer (`ProviderOutcome`);
- the clock readings that give message ids, and their time labels;
- the id `Date.now()` gives a new contact;
- the bytes of a chosen avatar file, if it exists;
- the provider key the component ships as its fallback (`builtinKey`).

## Model

| member | source | states |
|---|---|---|
| Text.TrimStart | src/App.jsx:222 | the result is a suffix of the input; everything cut off is white space; the result does not start with white space |
| Text.TrimEnd | src/App.jsx:337 | the result is a prefix of the input; everything cut off is white space; the result does not end with white space |
| Text.TrimIsEmptyIffBlank | src/App.jsx:337 | `s.trim()` is empty exactly when every character of `s` is ECMAScript white space |
| Text.TrimsToEmpty | src/App.jsx:222 | `!s.trim()` holds exactly when `s` is made of white space only |
| Text.DigitChar | electron.cjs:73 | a digit value becomes an ASCII digit character |
| Text.Decimal | electron.cjs:73 | an id's numeral is non-empty and made of digits only |
| Text.DecimalRoundTrip | electron.cjs:73 | reading back the numeral of `n` gives `n` |
| Text.DecimalInjective | electron.cjs:73 | two ids have the same numeral exactly when they are equal |
| Text.DecimalIsNotWord | src/App.jsx:348 | no numeral equals a name that starts with a non-digit (`null`, `avatars`) |
| Text.LastIndexOf | electron.cjs:151 | the result is the position of the last occurrence of the character, and none exists when the result is absent |
| Text.StripTrailingSlashes | electron.cjs:151 | the result is a prefix; only separators are removed; it does not end with a separator |
| Text.BaseName | electron.cjs:151 | the last path component contains no separator |
| Text.BaseNameIsLastComponent | electron.cjs:151 | the last component is what follows the last separator once trailing separators are dropped (the whole path when it has none) |
| Text.ExtName | electron.cjs:151 | `path.extname` is empty or a dot followed by no dot or separator, and it is a proper suffix of the last component |
| Text.LastIndexOfAppend | electron.cjs:151 | appending text without the character keeps its last position |
| Text.BaseNameOfAppend | electron.cjs:151 | the last component of `stem + ext` is the last component of `stem` followed by `ext` |
| Text.ExtNameOfFileName | electron.cjs:151 | a file named `stem + ext` has extension exactly `ext`, whatever directories `stem` names |
| Records.KeysDistinct | src/App.jsx:348 | two active-contact values file their logs under the same key exactly when they are equal; no contact uses the `null` key |
| Store.FirstAvatarFrom | electron.cjs:158-164 | the probe finds the first extension, in probing order, whose avatar file exists; when it finds none, none exists |
| Store.WithoutFirstAvatar | electron.cjs:172-180 | delete-avatar removes exactly one file when an avatar exists, and nothing otherwise |
| Store.ExtsSuffixFree | electron.cjs:156 | no probed extension is the tail of another |
| Store.AvatarPathsDistinct | electron.cjs:159 | two avatar paths are equal exactly when both their key and their extension are |
| Store.AvatarPathsOfKeyDistinct | electron.cjs:151 | under one key, different extensions name different files |
| Store.DataStore.constructor | electron.cjs:8-14 | at start-up the existing files are kept and the avatars directory exists |
| Store.DataStore.SaveMessages | electron.cjs:72-79 | the key's log becomes the saved one, so load-messages returns it; every other key's log is unchanged |
| Store.DataStore.LoadMessages | electron.cjs:81-89 | the reply is the saved log, `[]` when none was saved, and no reply when the file does not hold a log |
| Store.DataStore.DeleteMessages | electron.cjs:91-96 | the key's directory is gone, so load-messages returns `[]`; every other key's log is unchanged; nothing happens when it is absent |
| Store.DataStore.DeleteAllMessages | electron.cjs:98-103 | every file is gone, so every load returns its default; the avatars directory is gone too |
| Store.DataStore.SaveConfig | electron.cjs:108-110 | the configuration document is replaced whole, so load-config returns it |
| Store.DataStore.LoadConfig | electron.cjs:112-133 | the reply is the saved configuration, or the default one (zhipu, empty keys, glm-4-flash and DeepSeek-V3, no custom models) when none was saved |
| Store.DataStore.SaveContacts | electron.cjs:135-137 | the roster document is replaced whole, so load-contacts returns it; no log changes |
| Store.DataStore.LoadContacts | electron.cjs:139-148 | the reply is the saved roster, or the one seeded contact with id 1 when none was saved |
| Store.DataStore.SaveAvatar | electron.cjs:150-153 | the image is copied to `avatars/<key><extname(source)>` when the source exists and the avatars directory does; nothing changes otherwise; other avatar files of the key stay |
| Store.DataStore.LoadAvatar | electron.cjs:155-170 | the result is the first existing avatar file in `.png`, `.jpg`, `.jpeg`, `.gif`, `.webp` order; it is absent exactly when no such file exists |
| Store.DataStore.DeleteAvatar | electron.cjs:172-181 | only the first existing avatar file in probing order is removed; every log, the configuration and the roster are unchanged |
| Store.AvatarsUnderOtherDir | electron.cjs:91-96 | deleting a contact's log directory leaves every avatar lookup unchanged |
| Store.FirstAvatarSameProbes | electron.cjs:158-164 | the first hit depends only on which probed files exist |
| Store.DeleteAvatarRemovesOnlyFirstHit | electron.cjs:172-181 | after delete-avatar, a file exists exactly when it existed before and was not the first hit, and it keeps its content |
| Store.DeleteAvatarLeavesLaterExtension | electron.cjs:172-181 | with avatars under two extensions, load-avatar still finds one after delete-avatar |
| Store.AvatarIsNoLog | electron.cjs:175 | an avatar file is never a log file |
| Store.KeysAreNotAvatarsDir | electron.cjs:73 | no contact key, and not the `null` key, names the avatars directory |
| Store.PathsDisjoint | electron.cjs:105-106 | logs, avatars, the configuration and the roster live at pairwise different paths |
| Completion.ToApiAll | src/App.jsx:289-292 | the mapped history has one entry per stored message |
| Completion.ToApiAllPointwise | src/App.jsx:289-292 | each stored message becomes the entry at the same position, with role user exactly for type "sent" |
| Completion.WindowIsRecentSuffix | src/App.jsx:286-288 | the window is the last min(\|history\|, 200) messages, in stored order |
| Completion.PromptLength | src/App.jsx:294-301 | the prompt has min(\|history\|, 200) entries, plus one for a non-empty persona, plus one for the utterance |
| Completion.PromptEnds | src/App.jsx:294-301 | a non-empty persona is the first entry with role system; the utterance is the last entry with role user; no other entry has role system |
| Completion.PromptHistory | src/App.jsx:286-292 | between persona and utterance come the windowed messages in order, content unchanged, role user exactly for type "sent" and assistant otherwise |
| Completion.BuildApiMessages | src/App.jsx:286-301 | the slice, map, unshift and push build exactly the prompt |
| Completion.ReplyFallbacks | src/App.jsx:303-333 | the reply is never empty; it is the first choice's non-empty content, else the "cannot answer" text; with no address, a failed call or no choices array it is the "unavailable" text |
| Roster.Edited | src/App.jsx:228-232 | the edited roster has the same length as the roster |
| Roster.EditedChangesOnlyTheEdited | src/App.jsx:228-232 | contacts with the edited id take the form's name, avatar and persona and keep their other fields; every other contact is untouched |
| Roster.NewContact | src/App.jsx:240-248 | a new contact has the form's name and avatar, an empty preview and time, nothing unread, and the default persona when the form gives none |
| Roster.Without | src/App.jsx:206 | a contact is kept exactly when it was in the roster and its id is not the deleted one |
| Roster.WithoutDistributes | src/App.jsx:206 | filtering a concatenation filters each part, so kept contacts stay in order |
| Roster.WithoutAbsentId | src/App.jsx:206 | a roster without the id is left exactly as it was |
| Roster.FallbackActive | src/App.jsx:214 | a next active contact exists exactly when a contact remains and the first one's id is not 0, and then it is that first contact |
| Roster.ActiveAfterDelete | src/App.jsx:213-215 | the active contact changes only when it was the deleted one |
| Roster.Find | src/App.jsx:367 | the result is the first contact with the active id, and none has it when the result is absent |
| Roster.Preview | src/App.jsx:386 | the preview is the reply's first 20 characters followed by "..." |
| Roster.WithPreview | src/App.jsx:382-391 | the updated roster has the same length as the roster |
| Roster.PreviewChangesOnlyTheActive | src/App.jsx:382-391 | only the active contact's preview and time change; every other field of every contact stays |
| Roster.PreviewOverwrites | src/App.jsx:351-391 | the preview shown after a send is the reply's, as if the user's text had never been shown |
| Settings.FromConfig | src/App.jsx:64-79 | a non-empty provider and every present map are taken as loaded; an empty or missing provider becomes zhipu; a missing key map becomes the built-in key for zhipu and an empty one for siliconflow; a missing model map becomes glm-4-flash and DeepSeek-V3; missing custom-model flags are all off |
| Settings.ToConfig | src/App.jsx:52-59 | the saved document holds all four settings |
| Settings.SaveThenLoad | src/App.jsx:52-79 | saving then loading gives back the settings, except that an empty provider reads back as zhipu |
| Settings.FirstRunSettings | src/App.jsx:64-79 | on first run the main process's default wins: keys stay empty and the built-in key is never used |
| Settings.EmptyDocumentSettings | src/App.jsx:66-78 | a document without any field yields every fallback, the built-in key included |
| App.ChatApp.constructor | src/App.jsx:25-43 | no contacts, no logs, no active contact, and the initial settings |
| App.ChatApp.LoadSettings | src/App.jsx:64-79 | the settings become the loaded configuration with its fallbacks; nothing changes when no reply comes |
| App.ChatApp.SaveSettings | src/App.jsx:52-62 | the configuration document becomes the current settings |
| App.ChatApp.LoadContacts | src/App.jsx:81-99 | the roster becomes the saved one; the first contact becomes active when none is (id 0 counts as none); the logs become the fold of the listed contacts' saved logs (`WithSavedLogs`), which the effect of the new selection leaves as it is |
| App.ChatApp.LoadActiveLog | src/App.jsx:147-158 | the saved log under the active contact's key (`null` when none is active) is shown under that key if it could be read; no other log changes |
| App.ChatApp.SetActiveContact | src/App.jsx:147-158 | the selection becomes the given one, null included; when it changed, its saved log is loaded under its key, and otherwise the logs stay as they were |
| App.ChatApp.Mount | src/App.jsx:101-104 | at mount the starting selection's saved log is loaded, then the settings and the roster with every listed log |
| App.ChatApp.ClearMessages | src/App.jsx:166-174 | the active contact's log is empty on screen and on disk; every other log is unchanged |
| App.ChatApp.ClearAllMessages | src/App.jsx:176-181 | every log is forgotten on screen, the store is wiped and every load returns its default |
| App.ChatApp.HandleDeleteContact | src/App.jsx:199-219 | the contact's log directory and first avatar are removed; it leaves the roster and the logs on screen; the roster is saved; other stored logs are unchanged; if it was active the selection moves and the new selection's saved log (the `null` key's when none remains) is loaded |
| App.ChatApp.HandleSaveContact | src/App.jsx:221-264 | a blank name changes nothing; otherwise the edit or the new contact is applied, a chosen avatar is copied, and the roster is saved |
| App.ChatApp.CallAI | src/App.jsx:284-334 | the request carries the prompt, the provider's address, key and model; the reply is the folded answer |
| App.ChatApp.HandleSendMessage | src/App.jsx:336-396 | blank input changes nothing and sends nothing; otherwise the prompt is built from the log before the send, the log becomes prior + [sent, received] on screen and on disk, and only the active contact's preview changes |
| App.SavedLogsStep | src/App.jsx:88-97 | loading one more contact's log extends the loaded logs by that contact's saved log |
| App.SavedLogsLoaded | src/App.jsx:88-97 | every listed contact whose saved log can be read has exactly that log on screen |
| App.OtherLogsKept | src/App.jsx:88-97 | logs of keys no listed contact has are left as they were |

## Left out

- Window creation, the Content-Security-Policy header, the minimize, maximize and close
  handlers and the application lifecycle. These are process and window plumbing.
- The `select-avatar-file` dialog and `handleAvatarUpload` with its FileReader branch.
  These are foreign UI APIs. The chosen file's path and bytes are parameters of
  `HandleSaveContact`.
- `handleAddContact` and `handleEditContact`. They only fill the dialog; the dialog's
  content reaches the model as a `ContactForm`.
- `preload.cjs` and its `ipcRenderer.once` promises. Every pending `loadMessages` call
  listens for the next `messages-loaded` reply, and resolves only if that reply carries
  its own id. The first reply removes every pending listener, so the other pending
  loads never resolve. When loadContacts sends one load per listed contact, the source
  therefore shows about one saved log. The model takes the calls one at a time and
  loads every listed log.
- The HTTP requests of `callAI` and `fetchModels`. The provider's answer is an input
  (`ProviderOutcome`). The request is returned as a value. `fetchModels` and the model
  list are not modelled.
- JSON serialisation. Documents are values. A file that does not parse as the expected
  document is modelled as a file that holds another kind of document; its load handler
  then sends no reply.
- JSX rendering, scrolling, the notification timer, the loading flag, clearing the input
  box and closing the contact dialog.
- `Date.now()` and `toLocaleTimeString`. Their values are parameters.
- The `window.electronAPI?.x` guards. Under Electron they always hold.
- Node's Windows `path.extname`. Only the POSIX behaviour is modelled.
- Text.Decimal: writes every id in plain digits. JavaScript writes numbers of 10^21 and
  above in exponent form (`1e+21`), so such ids get a different key and directory name
  in the source.
- The "data directory absent" branch of delete-all-messages. The directory is created at
  start-up and recreated by the wipe, so that branch is never reached here.
- Store.DataStore.SaveMessages: always succeeds. When a file already sits at the contact's
  directory path, the existence check passes, and the `writeFileSync` of electron.cjs:78
  then fails (ENOTDIR). The model leaves that failure out.
- Roster.Preview: counts Unicode scalar values where JavaScript's `substring` counts
  UTF-16 code units. A reply with characters outside the Basic Multilingual Plane is cut
  at a different place.
