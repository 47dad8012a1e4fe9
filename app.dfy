/**
 * The chat component of src/App.jsx: its state (the roster, the message logs
 * keyed by contact, the active contact and the provider settings) and the
 * handlers that change it and persist through the main process's store.
 * Calls are taken one at a time; each IPC request is handled before the next
 * statement runs.
 */
module App {
  import opened Wrappers
  import opened Records
  import opened Completion
  import opened Roster
  import opened Settings
  import Store
  import Text

  /** `map[key]`, when present. */
  function Lookup<V>(m: map<string, V>, key: string): Option<V> {
    if key in m then Some(m[key]) else None
  }

  class ChatApp {
    var contacts: seq<Contact>
    /** Message logs by property key: `Key(id)` for a contact, `NullKey` with no active contact. */
    var messages: map<string, seq<Message>>
    var activeContact: Option<ContactId>
    var settings: ApiSettings
    /** The main process's store, reached over IPC. */
    const store: Store.DataStore

    /** The component's initial state. */
    constructor (store: Store.DataStore)
      ensures this.store == store
      ensures contacts == [] && messages == map[] && activeContact == None
      ensures settings == InitialSettings()
    {
      this.store := store;
      contacts := [];
      messages := map[];
      activeContact := None;
      settings := InitialSettings();
    }

    /** `messages[key] || []`. */
    function Log(key: string): seq<Message>
      reads this
    {
      if key in messages then messages[key] else []
    }

    // -------------------------------------------------------------------------
    // Settings

    /** loadSettings: apply the loaded configuration with its per-field fallbacks. */
    method LoadSettings(builtinKey: string)
      modifies this`settings
      ensures Store.ConfigIn(store.files).Replied? ==>
        settings == FromConfig(Store.ConfigIn(store.files).value, builtinKey)
      ensures Store.ConfigIn(store.files).NoReply? ==> settings == old(settings)
    {
      var reply := store.LoadConfig();
      if reply.Replied? {
        settings := FromConfig(reply.value, builtinKey);
      }
    }

    /** saveSettings: write the current settings as the configuration document. */
    method SaveSettings()
      modifies store`files
      ensures store.files == old(store.files)[Store.ConfigPath := Store.ConfigDoc(ToConfig(settings))]
      ensures Store.ConfigIn(store.files) == Store.Replied(ToConfig(settings))
    {
      store.SaveConfig(ToConfig(settings));
    }

    // -------------------------------------------------------------------------
    // Loading

    /**
     * loadContacts: take the saved roster, make its first contact active when
     * none is (`!activeContact`, so also when the active id is 0), and load
     * every listed contact's log; the effect of a changed selection loads the
     * first contact's log once more, to the same value.
     */
    method LoadContacts()
      modifies this`contacts, this`activeContact, this`messages
      ensures Store.RosterIn(store.files).NoReply? ==>
        contacts == old(contacts) && activeContact == old(activeContact) && messages == old(messages)
      ensures Store.RosterIn(store.files).Replied? ==>
        var saved := Store.RosterIn(store.files).value;
        && contacts == saved
        && activeContact == (if |saved| > 0 && (old(activeContact) == None || old(activeContact) == Some(0))
                             then Some(saved[0].id) else old(activeContact))
        && messages == WithSavedLogs(old(messages), store.files, saved)
    {
      var reply := store.LoadContacts();
      if reply.NoReply? {
        return;
      }
      var saved := reply.value;
      contacts := saved;
      var select := |saved| > 0 && (activeContact == None || activeContact == Some(0));
      var i := 0;
      while i < |saved|
        invariant 0 <= i <= |saved|
        invariant contacts == saved && activeContact == old(activeContact)
        invariant messages == WithSavedLogs(old(messages), store.files, saved[..i])
      {
        var key := Key(saved[i].id);
        var log := store.LoadMessages(key);
        if log.Replied? {
          messages := messages[key := log.value];
        }
        SavedLogsStep(old(messages), store.files, saved, i);
        i := i + 1;
      }
      assert saved[..i] == saved;
      // React applies the new selection with the loads already sent; its
      // effect then reloads a log the loop has just shown.
      if select {
        if Store.LogIn(store.files, Key(saved[0].id)).Replied? {
          SavedLogsLoaded(old(messages), store.files, saved, 0);
        }
        SetActiveContact(Some(saved[0].id));
      }
    }

    /**
     * The effect on `[activeContact]`: load the active contact's saved log
     * (the `null` key when none is active) and show it under that key.
     */
    method LoadActiveLog()
      modifies this`messages
      ensures messages == WithLog(old(messages), store.files, KeyOf(activeContact))
    {
      var key := KeyOf(activeContact);
      var log := store.LoadMessages(key);
      if log.Replied? {
        messages := messages[key := log.value];
      }
    }

    /**
     * `setActiveContact(next)` as every caller uses it (a click on a contact,
     * loadContacts, handleDeleteContact): when the selection changes, the
     * effect on `[activeContact]` follows and loads the new selection's log.
     */
    method SetActiveContact(next: Option<ContactId>)
      modifies this`activeContact, this`messages
      ensures activeContact == next
      ensures next != old(activeContact) ==> messages == WithLog(old(messages), store.files, KeyOf(next))
      ensures next == old(activeContact) ==> messages == old(messages)
    {
      if next != activeContact {
        activeContact := next;
        LoadActiveLog();
      }
    }

    /**
     * The component's mount: the effect on `[activeContact]` runs once with
     * the selection it starts with, and the effect on `[]` runs loadSettings
     * and loadContacts. The initial load touches only the log of the starting
     * selection, which loadContacts rewrites (if at all) with the same stored
     * log, so the order in which the three replies arrive does not matter.
     */
    method Mount(builtinKey: string)
      modifies this`settings, this`contacts, this`activeContact, this`messages
      ensures Store.ConfigIn(store.files).Replied? ==>
        settings == FromConfig(Store.ConfigIn(store.files).value, builtinKey)
      ensures Store.ConfigIn(store.files).NoReply? ==> settings == old(settings)
      ensures var shown := WithLog(old(messages), store.files, KeyOf(old(activeContact)));
        && (Store.RosterIn(store.files).NoReply? ==>
              contacts == old(contacts) && activeContact == old(activeContact) && messages == shown)
        && (Store.RosterIn(store.files).Replied? ==>
              var saved := Store.RosterIn(store.files).value;
              && contacts == saved
              && activeContact == (if |saved| > 0 && (old(activeContact) == None || old(activeContact) == Some(0))
                                   then Some(saved[0].id) else old(activeContact))
              && messages == WithSavedLogs(shown, store.files, saved))
    {
      LoadActiveLog();
      LoadSettings(builtinKey);
      LoadContacts();
    }

    // -------------------------------------------------------------------------
    // Clearing

    /** clearMessages: empty the active contact's log, on screen and on disk. */
    method ClearMessages()
      modifies this`messages, store
      ensures messages == old(messages)[KeyOf(activeContact) := []]
      ensures store.files == Store.WithoutDir(old(store.files), KeyOf(activeContact))
      ensures store.avatarsDir == old(store.avatarsDir)
      ensures Store.LogIn(store.files, KeyOf(activeContact)) == Store.Replied([])
      ensures forall k :: k != KeyOf(activeContact) ==> Store.LogIn(store.files, k) == Store.LogIn(old(store.files), k)
    {
      Store.KeysAreNotAvatarsDir(activeContact);
      store.DeleteMessages(KeyOf(activeContact));
      messages := messages[KeyOf(activeContact) := []];
    }

    /**
     * clearAllMessages: wipe the whole store (logs, roster, configuration and
     * avatars) and forget every log on screen; the roster on screen stays.
     */
    method ClearAllMessages()
      modifies this`messages, store
      ensures messages == map[]
      ensures store.files == map[] && !store.avatarsDir
      ensures forall k :: Store.LogIn(store.files, k) == Store.Replied([])
      ensures Store.RosterIn(store.files) == Store.Replied(Store.SeedRoster())
      ensures Store.ConfigIn(store.files) == Store.Replied(Store.DefaultConfig())
    {
      store.DeleteAllMessages();
      messages := map[];
    }

    // -------------------------------------------------------------------------
    // The roster

    /**
     * handleDeleteContact: delete the contact's log directory and its first
     * avatar file, drop it from the roster and from the logs on screen, save
     * the roster, and move the selection if it was active (which loads the
     * new selection's log).
     */
    method HandleDeleteContact(id: ContactId)
      modifies this`contacts, this`messages, this`activeContact, store
      ensures contacts == Without(old(contacts), id)
      ensures activeContact == ActiveAfterDelete(old(activeContact), id, contacts)
      ensures old(activeContact) != Some(id) ==> messages == old(messages) - {Key(id)}
      ensures old(activeContact) == Some(id) ==>
        messages == WithLog(old(messages) - {Key(id)}, store.files, KeyOf(activeContact))
      ensures store.avatarsDir == old(store.avatarsDir)
      ensures store.files
           == Store.WithoutFirstAvatar(Store.WithoutDir(old(store.files), Key(id)), Key(id))
                [Store.ContactsPath := Store.RosterDoc(contacts)]
      ensures Store.LogIn(store.files, Key(id)) == Store.Replied([])
      ensures Store.RosterIn(store.files) == Store.Replied(contacts)
      ensures forall k :: k != Key(id) ==> Store.LogIn(store.files, k) == Store.LogIn(old(store.files), k)
    {
      var key := Key(id);
      Store.KeysAreNotAvatarsDir(Some(id));
      store.DeleteMessages(key);
      store.DeleteAvatar(key);
      var updated := Without(contacts, id);
      contacts := updated;
      messages := messages - {key};
      store.SaveContacts(updated);
      // The selection moves after the roster save is sent; the effect on
      // `[activeContact]` then loads the new selection's log.
      if activeContact == Some(id) {
        var next := FallbackActive(updated);
        if next.Some? {
          assert updated[0] in updated;
        }
        SetActiveContact(next);
      }
    }

    /**
     * handleSaveContact: ignore a blank name; otherwise either apply the form
     * to the contact being edited or append a new contact with id `newId`,
     * copy a chosen avatar (`source` is the chosen file's content, if it
     * exists), and save the roster.
     */
    method HandleSaveContact(form: ContactForm, editing: Option<Contact>, newId: ContactId, source: Option<Store.Bytes>)
      modifies this`contacts, this`messages, store
      ensures Text.Blank(form.name) ==>
        contacts == old(contacts) && messages == old(messages) && store.files == old(store.files)
      ensures !Text.Blank(form.name) && editing.Some? ==>
        contacts == Edited(old(contacts), editing.value.id, form) && messages == old(messages)
      ensures !Text.Blank(form.name) && editing.None? ==>
        contacts == old(contacts) + [NewContact(newId, form)] && messages == old(messages)[Key(newId) := []]
      ensures !Text.Blank(form.name) ==>
        var id := if editing.Some? then editing.value.id else newId;
        var copied := form.avatar != "" && source.Some? && old(store.avatarsDir);
        var withAvatar := if copied
          then old(store.files)[Store.AvatarPath(Key(id), Text.ExtName(form.avatar)) := Store.ImageDoc(source.value)]
          else old(store.files);
        store.files == withAvatar[Store.ContactsPath := Store.RosterDoc(contacts)]
      ensures !Text.Blank(form.name) ==> Store.RosterIn(store.files) == Store.Replied(contacts)
      ensures store.avatarsDir == old(store.avatarsDir)
    {
      var blank := Text.TrimsToEmpty(form.name);
      if blank {
        return;
      }
      ghost var before := store.files;
      var id: ContactId;
      var updated: seq<Contact>;
      if editing.Some? {
        id := editing.value.id;
        updated := Edited(contacts, editing.value.id, form);
        contacts := updated;
      } else {
        id := newId;
        updated := contacts + [NewContact(newId, form)];
        contacts := updated;
        messages := messages[Key(newId) := []];
      }
      if form.avatar != "" {
        var _ := store.SaveAvatar(Key(id), form.avatar, source);
      }
      assert store.files == if form.avatar != "" && source.Some? && store.avatarsDir
        then before[Store.AvatarPath(Key(id), Text.ExtName(form.avatar)) := Store.ImageDoc(source.value)]
        else before;
      store.SaveContacts(updated);
    }

    // -------------------------------------------------------------------------
    // Sending

    /**
     * callAI: build the request from the windowed history, the persona and the
     * new utterance, and turn what the provider answered (`outcome`) into the
     * reply text. Nothing escapes: every failure becomes a fallback text.
     */
    method CallAI(message: string, history: seq<Message>, persona: Option<string>, outcome: ProviderOutcome)
      returns (request: Request, reply: string)
      ensures request.messages == Prompt(history, persona, message)
      ensures request.endpoint == Endpoint(settings.apiProvider)
      ensures request.apiKey == if request.endpoint.Some? then Lookup(settings.apiKeys, settings.apiProvider) else None
      ensures request.model == Lookup(settings.models, settings.apiProvider)
      ensures reply == ReplyText(request.endpoint, outcome)
    {
      var apiMessages := BuildApiMessages(message, history, persona);
      var endpoint := Endpoint(settings.apiProvider);
      var apiKey := if endpoint.Some? then Lookup(settings.apiKeys, settings.apiProvider) else None;
      request := Request(endpoint, apiKey, Lookup(settings.models, settings.apiProvider), apiMessages);
      reply := ReplyText(endpoint, outcome);
    }

    /**
     * handleSendMessage: ignore blank input; otherwise append the user's
     * message, ask the provider with the history as it was before that
     * message, append the reply, show a preview of it on the active contact,
     * and save the log. `sentClock`/`replyClock` are the clock readings the
     * message ids come from and `sentTime`/`replyTime` their time labels;
     * `outcome` is what the provider answered. Returns the request made, if any.
     */
    method HandleSendMessage(
      input: string, sentClock: int, sentTime: string,
      outcome: ProviderOutcome, replyClock: int, replyTime: string)
      returns (request: Option<Request>)
      modifies this`contacts, this`messages, store
      ensures Text.Blank(input) ==>
        && request == None
        && contacts == old(contacts) && messages == old(messages)
        && store.files == old(store.files)
      ensures !Text.Blank(input) ==>
        var key := KeyOf(activeContact);
        var prior := old(Log(KeyOf(activeContact)));
        var reply := ReplyText(Endpoint(settings.apiProvider), outcome);
        var log := prior + [Message(sentClock, Sent, input, sentTime), Message(replyClock + 1, Received, reply, replyTime)];
        && request.Some?
        && request.value.messages == Prompt(prior, PersonaOf(old(contacts), activeContact), input)
        && messages == old(messages)[key := log]
        && contacts == WithPreview(old(contacts), activeContact, Preview(reply), JustNow)
        && store.files == old(store.files)[Store.MessagesPath(key) := Store.MessagesDoc(log)]
        && Store.LogIn(store.files, key) == Store.Replied(log)
      ensures store.avatarsDir == old(store.avatarsDir)
    {
      var blank := Text.TrimsToEmpty(input);
      if blank {
        return None;
      }
      var key := KeyOf(activeContact);
      var history := Log(key);
      var persona := PersonaOf(contacts, activeContact);
      ghost var roster := contacts;

      var sent := Message(sentClock, Sent, input, sentTime);
      messages := messages[key := Log(key) + [sent]];
      assert Log(key) == history + [sent];
      contacts := WithPreview(contacts, activeContact, input, JustNow);

      var req, reply := CallAI(input, history, persona, outcome);
      request := Some(req);

      var received := Message(replyClock + 1, Received, reply, replyTime);
      messages := messages[key := Log(key) + [received]];
      contacts := WithPreview(contacts, activeContact, Preview(reply), JustNow);
      PreviewOverwrites(roster, activeContact, input, JustNow, Preview(reply), JustNow);
      assert history + [sent] + [received] == history + [sent, received];
      ghost var shown := messages;
      assert shown == old(messages)[key := history + [sent, received]];

      Store.KeysAreNotAvatarsDir(activeContact);
      store.SaveMessages(key, history + [sent, received]);
      assert messages == shown;
    }
  }

  /** The logs on screen after the saved log of `key`, if it could be read, is shown under `key`. */
  function WithLog(logs: map<string, seq<Message>>, files: map<Store.Path, Store.Doc>, key: string)
    : map<string, seq<Message>>
  {
    match Store.LogIn(files, key)
    case Replied(log) => logs[key := log]
    case NoReply => logs
  }

  /**
   * The logs on screen after loadContacts has loaded, in roster order, the
   * saved log of every contact of `roster` whose log could be read.
   */
  function WithSavedLogs(logs: map<string, seq<Message>>, files: map<Store.Path, Store.Doc>, roster: seq<Contact>)
    : map<string, seq<Message>>
  {
    if roster == [] then logs
    else
      WithLog(WithSavedLogs(logs, files, roster[..|roster| - 1]), files, Key(roster[|roster| - 1].id))
  }

  /** Loading one more contact's log extends the fold by that contact. */
  lemma SavedLogsStep(logs: map<string, seq<Message>>, files: map<Store.Path, Store.Doc>, roster: seq<Contact>, i: nat)
    requires i < |roster|
    ensures var prev := WithSavedLogs(logs, files, roster[..i]);
      var key := Key(roster[i].id);
      WithSavedLogs(logs, files, roster[..i + 1])
        == (if Store.LogIn(files, key).Replied? then prev[key := Store.LogIn(files, key).value] else prev)
  {
    assert roster[..i + 1][..i] == roster[..i];
  }

  /** Every listed contact whose saved log can be read has exactly that log on screen. */
  lemma {:induction false} SavedLogsLoaded(logs: map<string, seq<Message>>, files: map<Store.Path, Store.Doc>, roster: seq<Contact>, i: nat)
    requires i < |roster| && Store.LogIn(files, Key(roster[i].id)).Replied?
    ensures Lookup(WithSavedLogs(logs, files, roster), Key(roster[i].id)) == Some(Store.LogIn(files, Key(roster[i].id)).value)
  {
    var last := |roster| - 1;
    if i < last {
      var init := roster[..last];
      assert init[i] == roster[i];
      SavedLogsLoaded(logs, files, init, i);
    }
  }

  /** The logs of keys no listed contact has are left as they were. */
  lemma {:induction false} OtherLogsKept(logs: map<string, seq<Message>>, files: map<Store.Path, Store.Doc>, roster: seq<Contact>, k: string)
    requires forall i :: 0 <= i < |roster| ==> Key(roster[i].id) != k
    ensures Lookup(WithSavedLogs(logs, files, roster), k) == Lookup(logs, k)
  {
    if roster != [] {
      var init := roster[..|roster| - 1];
      assert forall i :: 0 <= i < |init| ==> init[i] == roster[i];
      OtherLogsKept(logs, files, init, k);
    }
  }
}
