/**
 * The roster edits of src/App.jsx as functions on the contact list: the
 * `map`, `filter` and `find` expressions the handlers pass to `setContacts`.
 */
module Roster {
  import opened Wrappers
  import opened Records

  /** What the add/edit dialog holds when the user saves a contact. */
  datatype ContactForm = ContactForm(name: string, avatar: string, persona: string)

  /** The time label a contact shows right after an exchange. */
  const JustNow := "刚刚"

  // ---------------------------------------------------------------------------
  // Saving a contact

  /** One contact after the edit dialog was saved for `id`. */
  function EditOne(c: Contact, id: ContactId, form: ContactForm): Contact {
    if c.id == id then c.(name := form.name, avatar := form.avatar, persona := form.persona) else c
  }

  /** The edit branch of handleSaveContact: `roster.map` of EditOne. */
  function Edited(roster: seq<Contact>, id: ContactId, form: ContactForm): (r: seq<Contact>)
    ensures |r| == |roster|
  {
    if roster == [] then [] else [EditOne(roster[0], id, form)] + Edited(roster[1..], id, form)
  }

  /**
   * Saving the edit dialog: every contact with the edited id takes the form's
   * name, avatar and persona and keeps its id, preview, time and unread
   * count; every other contact is left as it was.
   */
  lemma {:induction false} EditedChangesOnlyTheEdited(roster: seq<Contact>, id: ContactId, form: ContactForm)
    ensures forall i :: 0 <= i < |roster| ==>
      var r := Edited(roster, id, form);
      && r[i].id == roster[i].id && r[i].lastMsg == roster[i].lastMsg
      && r[i].time == roster[i].time && r[i].unread == roster[i].unread
    ensures forall i :: 0 <= i < |roster| && roster[i].id == id ==>
      var r := Edited(roster, id, form);
      r[i].name == form.name && r[i].avatar == form.avatar && r[i].persona == form.persona
    ensures forall i :: 0 <= i < |roster| && roster[i].id != id ==> Edited(roster, id, form)[i] == roster[i]
  {
    if roster != [] {
      EditedChangesOnlyTheEdited(roster[1..], id, form);
      var r := Edited(roster, id, form);
      forall i | 1 <= i < |roster|
        ensures r[i] == Edited(roster[1..], id, form)[i - 1] && roster[i] == roster[1..][i - 1]
      {
      }
    }
  }

  /** The contact the add dialog creates: empty preview, nothing unread, a default persona. */
  function NewContact(id: ContactId, form: ContactForm): (c: Contact)
    ensures c.id == id && c.name == form.name && c.avatar == form.avatar
    ensures c.lastMsg == "" && c.time == "" && c.unread == 0
    ensures c.persona == (if form.persona == "" then DefaultPersona else form.persona)
    ensures c.persona != ""
  {
    Contact(id, form.name, "", "", 0, form.avatar, if form.persona != "" then form.persona else DefaultPersona)
  }

  // ---------------------------------------------------------------------------
  // Deleting a contact

  /** `roster.filter(c => c.id !== id)`. */
  function Without(roster: seq<Contact>, id: ContactId): (r: seq<Contact>)
    ensures |r| <= |roster|
    ensures forall c :: c in r <==> c in roster && c.id != id
  {
    if roster == [] then []
    else (if roster[0].id != id then [roster[0]] else []) + Without(roster[1..], id)
  }

  /** Filtering a concatenation filters each part: the kept contacts stay in their order. */
  lemma {:induction false} WithoutDistributes(a: seq<Contact>, b: seq<Contact>, id: ContactId)
    ensures Without(a + b, id) == Without(a, id) + Without(b, id)
  {
    if a == [] {
      assert a + b == b;
    } else {
      assert (a + b)[1..] == a[1..] + b;
      WithoutDistributes(a[1..], b, id);
    }
  }

  /** A roster without the id is left exactly as it was. */
  lemma {:induction false} WithoutAbsentId(roster: seq<Contact>, id: ContactId)
    requires forall c :: c in roster ==> c.id != id
    ensures Without(roster, id) == roster
  {
    if roster != [] {
      WithoutAbsentId(roster[1..], id);
    }
  }

  /**
   * The contact that becomes active after the active one was deleted:
   * `rest[0]?.id || null`, so the first remaining contact, unless there is
   * none or its id is the falsy 0.
   */
  function FallbackActive(rest: seq<Contact>): (r: Option<ContactId>)
    ensures r.Some? <==> |rest| > 0 && rest[0].id != 0
    ensures r.Some? ==> r.value == rest[0].id
  {
    if |rest| > 0 && rest[0].id != 0 then Some(rest[0].id) else None
  }

  /** The active contact after deleting `id`: unchanged unless it was the one deleted. */
  function ActiveAfterDelete(active: Option<ContactId>, id: ContactId, rest: seq<Contact>): (r: Option<ContactId>)
    ensures active != Some(id) ==> r == active
    ensures active == Some(id) && rest == [] ==> r == None
    ensures active == Some(id) && |rest| > 0 && rest[0].id != 0 ==> r == Some(rest[0].id)
  {
    if active == Some(id) then FallbackActive(rest) else active
  }

  // ---------------------------------------------------------------------------
  // Sending a message

  /** `roster.find(c => c.id === active)`: the first contact with the active id. */
  function Find(roster: seq<Contact>, active: Option<ContactId>): (r: Option<nat>)
    ensures r.Some? ==> r.value < |roster| && active == Some(roster[r.value].id)
    ensures r.Some? ==> forall j :: 0 <= j < r.value ==> active != Some(roster[j].id)
    ensures r.None? ==> forall j :: 0 <= j < |roster| ==> active != Some(roster[j].id)
  {
    if roster == [] then None
    else if active == Some(roster[0].id) then Some(0)
    else match Find(roster[1..], active)
      case None => None
      case Some(i) => Some(i + 1)
  }

  /** `currentContact?.persona`. */
  function PersonaOf(roster: seq<Contact>, active: Option<ContactId>): Option<string> {
    match Find(roster, active)
    case None => None
    case Some(i) => Some(roster[i].persona)
  }

  /** `reply.substring(0, 20) + '...'`: the preview shown under a contact's name. */
  function Preview(reply: string): (r: string)
    ensures |r| <= 23
    ensures |reply| <= 20 ==> r == reply + "..."
    ensures |reply| > 20 ==> r == reply[..20] + "..."
  {
    reply[..if |reply| < 20 then |reply| else 20] + "..."
  }

  /** One contact after an exchange with the active contact. */
  function PreviewOne(c: Contact, active: Option<ContactId>, lastMsg: string, time: string): Contact {
    if active == Some(c.id) then c.(lastMsg := lastMsg, time := time) else c
  }

  /** handleSendMessage's `setContacts`: `roster.map` of PreviewOne. */
  function WithPreview(roster: seq<Contact>, active: Option<ContactId>, lastMsg: string, time: string): (r: seq<Contact>)
    ensures |r| == |roster|
  {
    if roster == [] then []
    else [PreviewOne(roster[0], active, lastMsg, time)] + WithPreview(roster[1..], active, lastMsg, time)
  }

  /**
   * After an exchange the active contact shows the new preview and time;
   * everything else about every contact stays.
   */
  lemma {:induction false} PreviewChangesOnlyTheActive(roster: seq<Contact>, active: Option<ContactId>, lastMsg: string, time: string)
    ensures forall i :: 0 <= i < |roster| ==>
      var r := WithPreview(roster, active, lastMsg, time);
      && r[i].id == roster[i].id && r[i].name == roster[i].name && r[i].avatar == roster[i].avatar
      && r[i].persona == roster[i].persona && r[i].unread == roster[i].unread
    ensures forall i :: 0 <= i < |roster| && active == Some(roster[i].id) ==>
      var r := WithPreview(roster, active, lastMsg, time);
      r[i].lastMsg == lastMsg && r[i].time == time
    ensures forall i :: 0 <= i < |roster| && active != Some(roster[i].id) ==>
      WithPreview(roster, active, lastMsg, time)[i] == roster[i]
  {
    if roster != [] {
      PreviewChangesOnlyTheActive(roster[1..], active, lastMsg, time);
      var r := WithPreview(roster, active, lastMsg, time);
      forall i | 1 <= i < |roster|
        ensures r[i] == WithPreview(roster[1..], active, lastMsg, time)[i - 1] && roster[i] == roster[1..][i - 1]
      {
      }
    }
  }

  /** A second preview update replaces the first: only the latest text and time remain. */
  lemma PreviewOverwrites(roster: seq<Contact>, active: Option<ContactId>, m1: string, t1: string, m2: string, t2: string)
    ensures WithPreview(WithPreview(roster, active, m1, t1), active, m2, t2) == WithPreview(roster, active, m2, t2)
  {
    var mid := WithPreview(roster, active, m1, t1);
    PreviewChangesOnlyTheActive(roster, active, m1, t1);
    PreviewChangesOnlyTheActive(mid, active, m2, t2);
    PreviewChangesOnlyTheActive(roster, active, m2, t2);
    var a := WithPreview(mid, active, m2, t2);
    var b := WithPreview(roster, active, m2, t2);
    forall i | 0 <= i < |roster|
      ensures a[i] == b[i]
    {
    }
  }
}
