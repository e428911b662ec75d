/** The speaker service: create, update and delete the speakers of an event. Names of
    the speakers of one event are unique and an event has at most 50 speakers. */
module Speakers {
  import opened Common
  import opened Store
  import opened Sessions

  const MAX_SPEAKERS := 50

  /** What `SpeakerCreateSerializer` hands the service. */
  datatype SpeakerInput = SpeakerInput(fullName: string, title: string, company: string, bio: string)

  /** The fields an update provides; every serializer field is an attribute of the
      speaker, so the `hasattr` test lets each of them through. */
  datatype SpeakerPatch = SpeakerPatch(fullName: Option<string>, title: Option<string>, company: Option<string>, bio: Option<string>)

  function SpeakersOf(eventId: nat): Speaker -> bool {
    (s: Speaker) => s.event == eventId
  }

  /** Another speaker of the event than the one with key `except` has the name. */
  predicate NameTaken(speakers: seq<Speaker>, eventId: nat, name: string, except: Option<nat>) {
    exists s :: s in speakers && s.event == eventId && s.fullName == name && Some(s.id) != except
  }

  const NAME_TAKEN := "A speaker with this name already exists for this event"
  const TOO_MANY_SPEAKERS := "Event cannot have more than 50 speakers"

  /** `_validate_speaker_creation_rules`: a name already used in the event is refused
      first, then an event that has 50 speakers already. */
  function CreationRules(speakers: seq<Speaker>, eventId: nat, name: string): (r: Option<Err>)
    ensures r == Some(Invalid(NAME_TAKEN)) <==> NameTaken(speakers, eventId, name, None)
    ensures r == Some(Invalid(TOO_MANY_SPEAKERS)) <==>
      !NameTaken(speakers, eventId, name, None) && Count(speakers, SpeakersOf(eventId)) >= MAX_SPEAKERS
    ensures r.None? || r.value in {Invalid(NAME_TAKEN), Invalid(TOO_MANY_SPEAKERS)}
  {
    if NameTaken(speakers, eventId, name, None) then Some(Invalid(NAME_TAKEN))
    else if Count(speakers, SpeakersOf(eventId)) >= MAX_SPEAKERS then Some(Invalid(TOO_MANY_SPEAKERS))
    else None
  }

  /** `_validate_speaker_update_rules`: a new name is refused only when a speaker other
      than this one holds it; keeping one's own name passes. */
  function UpdateRules(speakers: seq<Speaker>, eventId: nat, speaker: Speaker, p: SpeakerPatch): (r: Option<Err>)
    ensures r.Some? <==> p.fullName.Some? && NameTaken(speakers, eventId, p.fullName.value, Some(speaker.id))
    ensures r.Some? ==> r == Some(Invalid(NAME_TAKEN))
  {
    if p.fullName.Some? && NameTaken(speakers, eventId, p.fullName.value, Some(speaker.id)) then Some(Invalid(NAME_TAKEN))
    else None
  }

  /** Among speakers with unique names, an update that keeps a speaker's own name is
      never refused. */
  lemma KeepingOwnNamePasses(speakers: seq<Speaker>, k: nat, p: SpeakerPatch)
    requires k < |speakers| && NamesUnique(speakers)
    requires p.fullName == Some(speakers[k].fullName)
    ensures UpdateRules(speakers, speakers[k].event, speakers[k], p).None?
  {
    if NameTaken(speakers, speakers[k].event, speakers[k].fullName, Some(speakers[k].id)) {
      var s :| s in speakers && s.event == speakers[k].event && s.fullName == speakers[k].fullName && Some(s.id) != Some(speakers[k].id);
      var i :| 0 <= i < |speakers| && speakers[i] == s;
    }
  }

  /** Within each event, no two speakers share a name. */
  predicate NamesUnique(speakers: seq<Speaker>) {
    forall i, j :: 0 <= i < j < |speakers| && speakers[i].event == speakers[j].event ==> speakers[i].fullName != speakers[j].fullName
  }

  /** No two speakers share a primary key. */
  predicate KeysUnique(speakers: seq<Speaker>) {
    forall i, j :: 0 <= i < j < |speakers| ==> speakers[i].id != speakers[j].id
  }

  /** `create_speaker`: after the rules, one speaker of the event is saved with the
      given fields; names stay unique per event and the event within its cap. */
  method CreateSpeaker(db: Database, event: Event, data: SpeakerInput) returns (r: Result<Speaker>)
    requires db.Valid()
    modifies db`speakers, db`nextId
    ensures db.Valid()
    ensures r.Fail? <==> CreationRules(old(db.speakers), event.id, data.fullName).Some?
    ensures r.Fail? ==> r.err == CreationRules(old(db.speakers), event.id, data.fullName).value && db.speakers == old(db.speakers)
    ensures r.Ok? ==>
      r.value == Speaker(r.value.id, event.id, data.fullName, data.title, data.company, data.bio)
      && old(db.nextId) <= r.value.id && db.speakers == old(db.speakers) + [r.value]
    ensures NamesUnique(old(db.speakers)) ==> NamesUnique(db.speakers)
    ensures KeysUnique(old(db.speakers)) ==> KeysUnique(db.speakers)
    ensures Count(old(db.speakers), SpeakersOf(event.id)) <= MAX_SPEAKERS ==> Count(db.speakers, SpeakersOf(event.id)) <= MAX_SPEAKERS
  {
    var failed := CreationRules(db.speakers, event.id, data.fullName);
    if failed.Some? {
      return Fail(failed.value);
    }
    var id := NewId(db);
    var s := Speaker(id, event.id, data.fullName, data.title, data.company, data.bio);
    AppendKeepsNamesUnique(db.speakers, s);
    CountAppend(db.speakers, s, SpeakersOf(event.id));
    db.AddSpeaker(s);
    return Ok(s);
  }

  lemma {:induction false} AppendKeepsNamesUnique(speakers: seq<Speaker>, x: Speaker)
    requires !NameTaken(speakers, x.event, x.fullName, None)
    requires forall s :: s in speakers ==> s.id < x.id
    ensures NamesUnique(speakers) ==> NamesUnique(speakers + [x])
    ensures KeysUnique(speakers) ==> KeysUnique(speakers + [x])
  {
    var t := speakers + [x];
    assert forall i :: 0 <= i < |speakers| ==> t[i] == speakers[i] && speakers[i] in speakers;
  }

  /** The `setattr` loop of `update_speaker`: the provided fields replace the stored
      ones; the key, the event and the other fields stay. */
  function ApplyPatch(s: Speaker, p: SpeakerPatch): (r: Speaker)
    ensures r.id == s.id && r.event == s.event
    ensures r.fullName == (if p.fullName.Some? then p.fullName.value else s.fullName)
    ensures r.title == (if p.title.Some? then p.title.value else s.title)
    ensures r.company == (if p.company.Some? then p.company.value else s.company)
    ensures r.bio == (if p.bio.Some? then p.bio.value else s.bio)
    ensures p == SpeakerPatch(None, None, None, None) ==> r == s
  {
    s.(fullName := if p.fullName.Some? then p.fullName.value else s.fullName,
       title := if p.title.Some? then p.title.value else s.title,
       company := if p.company.Some? then p.company.value else s.company,
       bio := if p.bio.Some? then p.bio.value else s.bio)
  }

  const NO_SUCH_SPEAKER := "Speaker not found"

  /** `update_speaker`: a speaker outside the event is not found; a name held by
      another speaker of the event is refused; otherwise the patch is saved. Unique
      names per event stay unique. */
  method UpdateSpeaker(db: Database, event: Event, id: nat, p: SpeakerPatch) returns (r: Result<Speaker>)
    requires db.Valid()
    modifies db`speakers
    ensures db.Valid()
    ensures SpeakerOfEvent(old(db.speakers), event.id, id).None? ==> r == Fail(NotFound(NO_SUCH_SPEAKER))
    ensures r.Ok? <==> (SpeakerOfEvent(old(db.speakers), event.id, id).Some?
      && UpdateRules(old(db.speakers), event.id, old(db.speakers)[SpeakerOfEvent(old(db.speakers), event.id, id).value], p).None?)
    ensures r.Fail? ==> db.speakers == old(db.speakers)
    ensures r.Ok? ==>
      var k := SpeakerOfEvent(old(db.speakers), event.id, id).value;
      r.value == ApplyPatch(old(db.speakers)[k], p) && db.speakers == old(db.speakers)[k := r.value]
    ensures NamesUnique(old(db.speakers)) && KeysUnique(old(db.speakers)) ==> NamesUnique(db.speakers)
  {
    var k := SpeakerOfEvent(db.speakers, event.id, id);
    if k.None? {
      return Fail(NotFound(NO_SUCH_SPEAKER));
    }
    var failed := UpdateRules(db.speakers, event.id, db.speakers[k.value], p);
    if failed.Some? {
      return Fail(failed.value);
    }
    var s := ApplyPatch(db.speakers[k.value], p);
    if NamesUnique(db.speakers) && KeysUnique(db.speakers) {
      UpdateKeepsNamesUnique(db.speakers, k.value, p);
    }
    db.SetSpeaker(k.value, s);
    return Ok(s);
  }

  lemma {:induction false} UpdateKeepsNamesUnique(speakers: seq<Speaker>, k: nat, p: SpeakerPatch)
    requires k < |speakers| && NamesUnique(speakers) && KeysUnique(speakers)
    requires UpdateRules(speakers, speakers[k].event, speakers[k], p).None?
    ensures NamesUnique(speakers[k := ApplyPatch(speakers[k], p)])
  {
    var t := speakers[k := ApplyPatch(speakers[k], p)];
    forall i, j | 0 <= i < j < |t| && t[i].event == t[j].event ensures t[i].fullName != t[j].fullName {
      if i == k || j == k {
        var o := if i == k then j else i;
        assert speakers[o] in speakers && speakers[o].id != speakers[k].id;
      }
    }
  }

  /** `delete_speaker`: a speaker outside the event is not found; otherwise exactly
      that row goes and its sessions keep no speaker. */
  method DeleteSpeaker(db: Database, event: Event, id: nat) returns (r: Option<Err>)
    requires db.Valid()
    modifies db`speakers, db`sessions
    ensures db.Valid()
    ensures r.Some? <==> SpeakerOfEvent(old(db.speakers), event.id, id).None?
    ensures r.Some? ==> r == Some(NotFound(NO_SUCH_SPEAKER)) && db.speakers == old(db.speakers) && db.sessions == old(db.sessions)
    ensures r.None? ==>
      db.speakers == RemoveAt(old(db.speakers), SpeakerOfEvent(old(db.speakers), event.id, id).value)
      && db.sessions == DetachSpeaker(old(db.sessions), id)
      && forall s :: s in db.sessions ==> s.speaker != Some(id)
  {
    var k := SpeakerOfEvent(db.speakers, event.id, id);
    if k.None? {
      return Some(NotFound(NO_SUCH_SPEAKER));
    }
    db.DeleteSpeaker(k.value);
    return None;
  }
}
