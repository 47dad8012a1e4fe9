/**
 * The main process's persistence handlers (electron.cjs): per-contact message
 * logs, the configuration and roster documents, and avatar images, all kept
 * below one data directory. The file system is a map from a path below the
 * data directory to the document stored there; `avatarsDir` records whether the
 * `avatars` directory exists, since copying an avatar needs it.
 */
module Store {
  import opened Wrappers
  import opened Records
  import Text

  /** A file's place below the data directory, one path component per element. */
  type Path = seq<string>

  type Bytes = seq<bv8>

  /** What a file holds. Documents are kept as values; their JSON text is not modelled. */
  datatype Doc =
    | MessagesDoc(log: seq<Message>)
    | ConfigDoc(config: Config)
    | RosterDoc(roster: seq<Contact>)
    | ImageDoc(bytes: Bytes)

  /**
   * What a load handler sends back to the renderer: the document, or nothing at
   * all when reading it throws (the file there does not parse as that document).
   */
  datatype Reply<T> = Replied(value: T) | NoReply

  const AvatarsDir := "avatars"
  const MessagesFile := "messages.json"
  const ConfigPath: Path := ["config.json"]
  const ContactsPath: Path := ["contacts.json"]

  /** The extensions load-avatar and delete-avatar probe, in probing order. */
  const AvatarExts: seq<string> := [".png", ".jpg", ".jpeg", ".gif", ".webp"]

  /** `<key>/messages.json`: the log of the contact filed under `key`. */
  function MessagesPath(key: string): Path {
    [key, MessagesFile]
  }

  /** `avatars/<key><ext>`. */
  function AvatarPath(key: string, ext: string): Path {
    [AvatarsDir, key + ext]
  }

  /** The configuration load-config answers with when none was saved. */
  function DefaultConfig(): Config {
    Config(
      Some("zhipu"),
      Some(map["zhipu" := "", "siliconflow" := ""]),
      Some(map["zhipu" := "glm-4-flash", "siliconflow" := "deepseek-ai/DeepSeek-V3"]),
      Some(map["zhipu" := false, "siliconflow" := false]))
  }

  /** The roster load-contacts answers with when none was saved. */
  function SeedRoster(): seq<Contact> {
    [Contact(1, "通用AI助手", "最新消息", "今天", 0, "", DefaultPersona)]
  }

  // ---------------------------------------------------------------------------
  // What each load handler answers, as a function of the files

  /** The reply of load-messages for `key`. */
  function LogIn(files: map<Path, Doc>, key: string): Reply<seq<Message>> {
    var p := MessagesPath(key);
    if p !in files then Replied([])
    else if files[p].MessagesDoc? then Replied(files[p].log)
    else NoReply
  }

  /** The reply of load-config. */
  function ConfigIn(files: map<Path, Doc>): Reply<Config> {
    if ConfigPath !in files then Replied(DefaultConfig())
    else if files[ConfigPath].ConfigDoc? then Replied(files[ConfigPath].config)
    else NoReply
  }

  /** The reply of load-contacts. */
  function RosterIn(files: map<Path, Doc>): Reply<seq<Contact>> {
    if ContactsPath !in files then Replied(SeedRoster())
    else if files[ContactsPath].RosterDoc? then Replied(files[ContactsPath].roster)
    else NoReply
  }

  /** The position in `AvatarExts`, from `i` on, of the first extension under which `key` has an avatar. */
  function FirstAvatarFrom(files: map<Path, Doc>, key: string, i: nat): (r: Option<nat>)
    requires i <= |AvatarExts|
    ensures r.Some? ==> i <= r.value < |AvatarExts| && AvatarPath(key, AvatarExts[r.value]) in files
    ensures r.Some? ==> forall j :: i <= j < r.value ==> AvatarPath(key, AvatarExts[j]) !in files
    ensures r.None? ==> forall j :: i <= j < |AvatarExts| ==> AvatarPath(key, AvatarExts[j]) !in files
    decreases |AvatarExts| - i
  {
    if i == |AvatarExts| then None
    else if AvatarPath(key, AvatarExts[i]) in files then Some(i)
    else FirstAvatarFrom(files, key, i + 1)
  }

  /** The reply of load-avatar for `key`: the first existing avatar file, in probing order. */
  function AvatarIn(files: map<Path, Doc>, key: string): Option<Path> {
    match FirstAvatarFrom(files, key, 0)
    case None => None
    case Some(i) => Some(AvatarPath(key, AvatarExts[i]))
  }

  /** The files left after delete-avatar for `key`: the first hit in probing order is gone. */
  function WithoutFirstAvatar(files: map<Path, Doc>, key: string): (r: map<Path, Doc>)
    ensures AvatarIn(files, key).None? ==> r == files
    ensures AvatarIn(files, key).Some? ==> AvatarIn(files, key).value in files && |r| == |files| - 1
  {
    match AvatarIn(files, key)
    case None => files
    case Some(p) => files - {p}
  }

  /** The files left by removing the directory `key` and everything below it. */
  function WithoutDir(files: map<Path, Doc>, key: string): map<Path, Doc> {
    map p | p in files && !(|p| > 0 && p[0] == key) :: files[p]
  }

  // ---------------------------------------------------------------------------
  // Facts about paths

  /** No probed extension is the tail of another. */
  lemma ExtsSuffixFree(e1: string, e2: string)
    requires e1 in AvatarExts && e2 in AvatarExts
    requires |e1| <= |e2| && e2[|e2| - |e1|..] == e1
    ensures e1 == e2
  {
    assert e1[|e1| - 3..] == e2[|e2| - 3..];
  }

  /** Two avatar files coincide exactly when both their key and their extension do. */
  lemma AvatarPathsDistinct(a: string, b: string, e1: string, e2: string)
    requires e1 in AvatarExts && e2 in AvatarExts
    ensures AvatarPath(a, e1) == AvatarPath(b, e2) <==> a == b && e1 == e2
  {
    if a + e1 == b + e2 {
      var s := a + e1;
      assert s[|s| - |e1|..] == e1;
      assert s[|s| - |e2|..] == e2;
      if |e1| <= |e2| {
        assert e2[|e2| - |e1|..] == e1;
        ExtsSuffixFree(e1, e2);
      } else {
        assert e1[|e1| - |e2|..] == e2;
        ExtsSuffixFree(e2, e1);
      }
      assert a == s[..|a|] == b;
    }
  }

  /** Under one key, different extensions name different files. */
  lemma AvatarPathsOfKeyDistinct(key: string, e1: string, e2: string)
    ensures AvatarPath(key, e1) == AvatarPath(key, e2) <==> e1 == e2
  {
    if key + e1 == key + e2 {
      assert e1 == (key + e1)[|key|..];
    }
  }

  // ---------------------------------------------------------------------------
  // The store

  class DataStore {
    var files: map<Path, Doc>
    var avatarsDir: bool

    /** Start-up: the data and avatars directories are created if missing; existing files stay. */
    constructor (existing: map<Path, Doc>)
      ensures files == existing && avatarsDir
    {
      files := existing;
      avatarsDir := true;
    }

    /** save-messages: overwrite the log of `key`, creating its directory. */
    method SaveMessages(key: string, log: seq<Message>)
      modifies this
      ensures files == old(files)[MessagesPath(key) := MessagesDoc(log)]
      ensures avatarsDir == (old(avatarsDir) || key == AvatarsDir)
      ensures LogIn(files, key) == Replied(log)
      ensures forall other :: other != key ==> LogIn(files, other) == LogIn(old(files), other)
    {
      files := files[MessagesPath(key) := MessagesDoc(log)];
      avatarsDir := avatarsDir || key == AvatarsDir;
    }

    /** load-messages: the saved log of `key`, or an empty one if none was saved. */
    method LoadMessages(key: string) returns (reply: Reply<seq<Message>>)
      ensures MessagesPath(key) !in files ==> reply == Replied([])
      ensures reply == LogIn(files, key)
    {
      var p := MessagesPath(key);
      if p in files {
        reply := if files[p].MessagesDoc? then Replied(files[p].log) else NoReply;
      } else {
        reply := Replied([]);
      }
    }

    /** delete-messages: remove the directory of `key` recursively; nothing happens when it is absent. */
    method DeleteMessages(key: string)
      modifies this
      ensures files == WithoutDir(old(files), key)
      ensures avatarsDir == (old(avatarsDir) && key != AvatarsDir)
      ensures LogIn(files, key) == Replied([])
      ensures forall other :: other != key ==> LogIn(files, other) == LogIn(old(files), other)
    {
      files := WithoutDir(files, key);
      avatarsDir := avatarsDir && key != AvatarsDir;
    }

    /**
     * delete-all-messages: remove the data directory and recreate it empty.
     * The avatars directory is not recreated.
     */
    method DeleteAllMessages()
      modifies this
      ensures files == map[] && !avatarsDir
      ensures forall k :: LogIn(files, k) == Replied([]) && AvatarIn(files, k) == None
      ensures ConfigIn(files) == Replied(DefaultConfig())
      ensures RosterIn(files) == Replied(SeedRoster())
    {
      files := map[];
      avatarsDir := false;
    }

    /** save-config: overwrite the whole configuration document. */
    method SaveConfig(config: Config)
      modifies this`files
      ensures files == old(files)[ConfigPath := ConfigDoc(config)]
      ensures ConfigIn(files) == Replied(config)
    {
      files := files[ConfigPath := ConfigDoc(config)];
    }

    /** load-config: the saved configuration, or the default one. */
    method LoadConfig() returns (reply: Reply<Config>)
      ensures ConfigPath !in files ==> reply == Replied(DefaultConfig())
      ensures reply == ConfigIn(files)
    {
      if ConfigPath in files {
        reply := if files[ConfigPath].ConfigDoc? then Replied(files[ConfigPath].config) else NoReply;
      } else {
        reply := Replied(DefaultConfig());
      }
    }

    /** save-contacts: overwrite the whole roster document. */
    method SaveContacts(roster: seq<Contact>)
      modifies this`files
      ensures files == old(files)[ContactsPath := RosterDoc(roster)]
      ensures RosterIn(files) == Replied(roster)
      ensures forall k :: LogIn(files, k) == LogIn(old(files), k)
    {
      files := files[ContactsPath := RosterDoc(roster)];
    }

    /** load-contacts: the saved roster, or the one seeded contact. */
    method LoadContacts() returns (reply: Reply<seq<Contact>>)
      ensures ContactsPath !in files ==> reply == Replied(SeedRoster())
      ensures reply == RosterIn(files)
    {
      if ContactsPath in files {
        reply := if files[ContactsPath].RosterDoc? then Replied(files[ContactsPath].roster) else NoReply;
      } else {
        reply := Replied(SeedRoster());
      }
    }

    /**
     * save-avatar: copy the image at `sourcePath` to `avatars/<key><extname(sourcePath)>`.
     * `source` is what the file at `sourcePath` holds, if it exists. The copy
     * fails, changing nothing, when the source is missing or the avatars
     * directory is gone; other avatar files of `key` are kept.
     */
    method SaveAvatar(key: string, sourcePath: string, source: Option<Bytes>) returns (ok: bool)
      modifies this`files
      ensures ok == (source.Some? && avatarsDir)
      ensures ok ==> files == old(files)[AvatarPath(key, Text.ExtName(sourcePath)) := ImageDoc(source.value)]
      ensures !ok ==> files == old(files)
      ensures forall e :: e != Text.ExtName(sourcePath) && AvatarPath(key, e) in old(files) ==> AvatarPath(key, e) in files
    {
      ok := source.Some? && avatarsDir;
      if ok {
        var dest := AvatarPath(key, Text.ExtName(sourcePath));
        files := files[dest := ImageDoc(source.value)];
        forall e | e != Text.ExtName(sourcePath) && AvatarPath(key, e) in old(files)
          ensures AvatarPath(key, e) in files
        {
          AvatarPathsOfKeyDistinct(key, e, Text.ExtName(sourcePath));
        }
      }
    }

    /** load-avatar: the first of `avatars/<key>.png`, `.jpg`, `.jpeg`, `.gif`, `.webp` that exists. */
    method LoadAvatar(key: string) returns (found: Option<Path>)
      ensures found == AvatarIn(files, key)
      ensures found.None? <==> forall e :: e in AvatarExts ==> AvatarPath(key, e) !in files
    {
      found := None;
      var i := 0;
      while i < |AvatarExts|
        invariant 0 <= i <= |AvatarExts|
        invariant found.None?
        invariant forall j :: 0 <= j < i ==> AvatarPath(key, AvatarExts[j]) !in files
      {
        var p := AvatarPath(key, AvatarExts[i]);
        if p in files {
          found := Some(p);
          assert FirstAvatarFrom(files, key, 0) == Some(i);
          break;
        }
        i := i + 1;
      }
      if found.None? {
        assert FirstAvatarFrom(files, key, 0) == None;
      }
    }

    /**
     * delete-avatar: remove the first avatar file of `key` in probing order, and
     * only that one; nothing happens when there is none.
     */
    method DeleteAvatar(key: string)
      modifies this`files
      ensures files == WithoutFirstAvatar(old(files), key)
      ensures forall k :: LogIn(files, k) == LogIn(old(files), k)
      ensures ConfigIn(files) == ConfigIn(old(files)) && RosterIn(files) == RosterIn(old(files))
    {
      var i := 0;
      while i < |AvatarExts|
        invariant 0 <= i <= |AvatarExts|
        invariant files == old(files)
        invariant forall j :: 0 <= j < i ==> AvatarPath(key, AvatarExts[j]) !in files
      {
        var p := AvatarPath(key, AvatarExts[i]);
        if p in files {
          assert FirstAvatarFrom(files, key, 0) == Some(i);
          files := files - {p};
          break;
        }
        i := i + 1;
      }
      if files == old(files) {
        assert FirstAvatarFrom(old(files), key, 0) == None;
      }
      forall k
        ensures LogIn(files, k) == LogIn(old(files), k)
      {
        AvatarIsNoLog(old(files), key, k);
      }
    }
  }

  // ---------------------------------------------------------------------------
  // Properties of the handlers

  /** Removing a directory other than `avatars` leaves every avatar lookup as it was. */
  lemma AvatarsUnderOtherDir(files: map<Path, Doc>, dir: string, key: string)
    requires dir != AvatarsDir
    ensures AvatarIn(WithoutDir(files, dir), key) == AvatarIn(files, key)
  {
    var files' := WithoutDir(files, dir);
    forall j | 0 <= j < |AvatarExts|
      ensures AvatarPath(key, AvatarExts[j]) in files' <==> AvatarPath(key, AvatarExts[j]) in files
    {
    }
    FirstAvatarSameProbes(files, files', key, 0);
  }

  /** The first hit depends only on which probed files exist. */
  lemma {:induction false} FirstAvatarSameProbes(f: map<Path, Doc>, g: map<Path, Doc>, key: string, i: nat)
    requires i <= |AvatarExts|
    requires forall j :: i <= j < |AvatarExts| ==> (AvatarPath(key, AvatarExts[j]) in f <==> AvatarPath(key, AvatarExts[j]) in g)
    ensures FirstAvatarFrom(f, key, i) == FirstAvatarFrom(g, key, i)
    decreases |AvatarExts| - i
  {
    if i < |AvatarExts| {
      FirstAvatarSameProbes(f, g, key, i + 1);
    }
  }

  /** delete-avatar removes the first hit and nothing else: every other file keeps its content. */
  lemma DeleteAvatarRemovesOnlyFirstHit(files: map<Path, Doc>, key: string, p: Path)
    ensures p in WithoutFirstAvatar(files, key) <==> p in files && Some(p) != AvatarIn(files, key)
    ensures p in WithoutFirstAvatar(files, key) ==> WithoutFirstAvatar(files, key)[p] == files[p]
  {
  }

  /**
   * delete-avatar removes one file only: when a contact has an avatar under two
   * extensions, load-avatar still finds the later one afterwards.
   */
  lemma DeleteAvatarLeavesLaterExtension(files: map<Path, Doc>, key: string, i: nat, j: nat)
    requires i < j < |AvatarExts|
    requires AvatarIn(files, key) == Some(AvatarPath(key, AvatarExts[i]))
    requires AvatarPath(key, AvatarExts[j]) in files
    ensures AvatarIn(files - {AvatarPath(key, AvatarExts[i])}, key).Some?
  {
    var g := files - {AvatarPath(key, AvatarExts[i])};
    AvatarPathsDistinct(key, key, AvatarExts[i], AvatarExts[j]);
    assert AvatarPath(key, AvatarExts[j]) in g;
  }

  /** An avatar file is never a log: no probed extension makes `<key><ext>` read `messages.json`. */
  lemma AvatarIsNoLog(files: map<Path, Doc>, key: string, k: string)
    ensures AvatarIn(files, key).Some? ==> AvatarIn(files, key).value != MessagesPath(k)
  {
    if AvatarIn(files, key).Some? {
      var i := FirstAvatarFrom(files, key, 0).value;
      var name := key + AvatarExts[i];
      assert name[|name| - 1] == AvatarExts[i][|AvatarExts[i]| - 1];
      assert name[|name| - 1] != MessagesFile[|MessagesFile| - 1];
    }
  }

  /** No contact key, nor the `null` key, names the avatars directory. */
  lemma KeysAreNotAvatarsDir(active: Option<ContactId>)
    ensures KeyOf(active) != AvatarsDir
  {
    if active.Some? {
      Text.DecimalIsNotWord(active.value, AvatarsDir);
    }
  }

  /** Avatars, logs and the two documents live at pairwise different paths. */
  lemma PathsDisjoint(key: string, k: string, e: string)
    requires key != AvatarsDir
    ensures MessagesPath(key) != AvatarPath(k, e)
    ensures MessagesPath(key) != ConfigPath && MessagesPath(key) != ContactsPath
    ensures AvatarPath(k, e) != ConfigPath && AvatarPath(k, e) != ContactsPath
    ensures ConfigPath != ContactsPath
  {
  }
}
