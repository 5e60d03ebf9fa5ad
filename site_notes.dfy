/**
 * Per-site sticky notes kept in the configuration (background.js): the
 * `getSiteNotes`, `addSiteNote`, `updateSiteNote`, `deleteSiteNote` and
 * `deleteSiteNotes` message handlers.
 *
 * The list operations are specified by functions over the entry sequence;
 * the class `ExtensionStorage` holds what is stored under the "config" key
 * and its handler methods update it step by step as the source does.
 */
module SiteNotes {
  import opened Wrappers
  import opened Collections
  import opened Configuration

  const DomainNotFound := "Domínio não encontrado"
  const NoteNotFound := "Nota não encontrada"

  /** `site => site.domain === domain`. */
  function DomainIs(domain: string): (p: SiteEntry -> bool) {
    (site: SiteEntry) => site.domain == domain
  }

  /** `site => site.domain !== domain`. */
  function DomainIsNot(domain: string): (p: SiteEntry -> bool) {
    (site: SiteEntry) => site.domain != domain
  }

  /** `note.id === noteId`; a note without an "id" field never has the id. */
  predicate HasId(note: Note, id: string) {
    "id" in note && note["id"] == Str(id)
  }

  /** `note => note.id === noteId`. */
  function IdIs(id: string): (p: Note -> bool) {
    (note: Note) => HasId(note, id)
  }

  /** `note => note.id !== noteId`. */
  function IdIsNot(id: string): (p: Note -> bool) {
    (note: Note) => !HasId(note, id)
  }

  predicate HasDomain(entries: seq<SiteEntry>, domain: string) {
    exists i :: 0 <= i < |entries| && entries[i].domain == domain
  }

  /** `i` is the entry the handlers act on for `domain`: the first one with that domain. */
  predicate FirstEntry(entries: seq<SiteEntry>, domain: string, i: nat) {
    i < |entries| && entries[i].domain == domain &&
    forall j :: 0 <= j < i ==> entries[j].domain != domain
  }

  /** `findIndex(site => site.domain === domain)` finds exactly the first entry for the domain. */
  lemma FindDomainIndex(entries: seq<SiteEntry>, domain: string)
    ensures FindIndex(entries, DomainIs(domain)).None? <==> !HasDomain(entries, domain)
    ensures forall i: nat :: FirstEntry(entries, domain, i) <==> FindIndex(entries, DomainIs(domain)) == Some(i)
  {
    var p := DomainIs(domain);
    assert forall j :: 0 <= j < |entries| ==> (p(entries[j]) <==> entries[j].domain == domain);
  }

  /** `k` is the note `updateSiteNote` rewrites: the first one with the id. */
  predicate FirstNote(notes: seq<Note>, id: string, k: nat) {
    k < |notes| && HasId(notes[k], id) && forall j :: 0 <= j < k ==> !HasId(notes[j], id)
  }

  /** `findIndex(note => note.id === noteId)` finds exactly the first note with the id. */
  lemma FindNoteIndex(notes: seq<Note>, id: string)
    ensures FindIndex(notes, IdIs(id)).None? <==> forall k :: 0 <= k < |notes| ==> !HasId(notes[k], id)
    ensures forall k: nat :: FirstNote(notes, id, k) <==> FindIndex(notes, IdIs(id)) == Some(k)
  {
    var p := IdIs(id);
    assert forall j :: 0 <= j < |notes| ==> (p(notes[j]) <==> HasId(notes[j], id));
  }

  /** The notes of the first entry for `domain`, or none. */
  function GetSiteNotes(entries: seq<SiteEntry>, domain: string): (notes: seq<Note>)
    ensures !HasDomain(entries, domain) ==> notes == []
    ensures forall i: nat :: FirstEntry(entries, domain, i) ==> notes == entries[i].notes
  {
    FindDomainIndex(entries, domain);
    match Find(entries, DomainIs(domain))
    case None => []
    case Some(site) => site.notes
  }

  /** The entry list after `addSiteNote`: a new entry at the end, or the note at the end of the first entry. */
  function AddNote(entries: seq<SiteEntry>, domain: string, note: Note): (r: seq<SiteEntry>)
    ensures !HasDomain(entries, domain) ==> r == entries + [SiteEntry(domain, [note])]
    ensures forall i: nat :: FirstEntry(entries, domain, i) ==>
              r == entries[i := SiteEntry(domain, entries[i].notes + [note])]
  {
    FindDomainIndex(entries, domain);
    match FindIndex(entries, DomainIs(domain))
    case None => entries + [SiteEntry(domain, [note])]
    case Some(i) => entries[i := entries[i].(notes := entries[i].notes + [note])]
  }

  /** The entry list after `updateSiteNote`, or the error it throws. */
  function UpdateNote(entries: seq<SiteEntry>, domain: string, id: string, updates: Note): (r: Result<seq<SiteEntry>>)
    ensures r == Err(DomainNotFound) <==> !HasDomain(entries, domain)
    ensures r == Err(NoteNotFound) <==>
              HasDomain(entries, domain) &&
              forall k :: 0 <= k < |GetSiteNotes(entries, domain)| ==> !HasId(GetSiteNotes(entries, domain)[k], id)
    ensures r.Err? ==> r.error in {DomainNotFound, NoteNotFound}
    ensures r.Ok? ==> |r.value| == |entries| && forall j :: 0 <= j < |entries| ==> r.value[j].domain == entries[j].domain
    ensures forall i: nat, k: nat :: FirstEntry(entries, domain, i) && FirstNote(entries[i].notes, id, k) ==>
              r == Ok(entries[i := SiteEntry(domain, entries[i].notes[k := entries[i].notes[k] + updates])])
  {
    FindDomainIndex(entries, domain);
    match FindIndex(entries, DomainIs(domain))
    case None => Err(DomainNotFound)
    case Some(i) =>
      var notes := entries[i].notes;
      assert GetSiteNotes(entries, domain) == notes;
      FindNoteIndex(notes, id);
      match FindIndex(notes, IdIs(id))
      case None => Err(NoteNotFound)
      case Some(k) => Ok(entries[i := entries[i].(notes := notes[k := notes[k] + updates])])
  }

  /** The entry list after `deleteSiteNote`, or the error it throws. */
  function DeleteNote(entries: seq<SiteEntry>, domain: string, id: string): (r: Result<seq<SiteEntry>>)
    ensures r.Err? <==> !HasDomain(entries, domain)
    ensures r.Err? ==> r.error == DomainNotFound
    ensures forall i: nat :: FirstEntry(entries, domain, i) ==>
              var kept := Filter(entries[i].notes, IdIsNot(id));
              r == Ok(if |kept| == 0 then DeleteDomain(entries, domain) else entries[i := SiteEntry(domain, kept)])
  {
    FindDomainIndex(entries, domain);
    match FindIndex(entries, DomainIs(domain))
    case None => Err(DomainNotFound)
    case Some(i) =>
      var kept := Filter(entries[i].notes, IdIsNot(id));
      if |kept| == 0 then Ok(Filter(entries, DomainIsNot(domain)))
      else Ok(entries[i := entries[i].(notes := kept)])
  }

  /** The entry list after `deleteSiteNotes`: every entry for `domain` gone, the others kept. */
  function DeleteDomain(entries: seq<SiteEntry>, domain: string): (r: seq<SiteEntry>)
    ensures !HasDomain(r, domain)
    ensures forall j :: 0 <= j < |entries| && entries[j].domain != domain ==> entries[j] in r
    ensures forall j :: 0 <= j < |r| ==> r[j] in entries
  {
    Filter(entries, DomainIsNot(domain))
  }

  /** After adding, the domain's notes are its old notes with the new one at the end. */
  lemma AddThenGet(entries: seq<SiteEntry>, domain: string, note: Note)
    ensures GetSiteNotes(AddNote(entries, domain, note), domain) == GetSiteNotes(entries, domain) + [note]
  {
    var r := AddNote(entries, domain, note);
    FindDomainIndex(entries, domain);
    match FindIndex(entries, DomainIs(domain))
    case None =>
      assert FirstEntry(r, domain, |entries|);
    case Some(i) =>
      assert FirstEntry(r, domain, i);
  }

  /** Adding a note for one domain leaves the notes of every other domain as they were. */
  lemma AddKeepsOtherDomains(entries: seq<SiteEntry>, domain: string, note: Note, other: string)
    requires other != domain
    ensures GetSiteNotes(AddNote(entries, domain, note), other) == GetSiteNotes(entries, other)
  {
    var p := DomainIs(other);
    match FindIndex(entries, DomainIs(domain))
    case None =>
      FindAppend(entries, [SiteEntry(domain, [note])], p);
    case Some(i) =>
      FindUpdateElsewhere(entries, i, entries[i].(notes := entries[i].notes + [note]), p);
  }

  /**
   * A successful update rewrites only the first note with the id, as that
   * note with the update fields spread over it; the domain's other notes
   * keep their values and positions.
   */
  lemma UpdateThenGet(entries: seq<SiteEntry>, domain: string, id: string, updates: Note)
    requires UpdateNote(entries, domain, id, updates).Ok?
    ensures var notes := GetSiteNotes(entries, domain);
            exists k: nat :: FirstNote(notes, id, k) &&
              GetSiteNotes(UpdateNote(entries, domain, id, updates).value, domain) == notes[k := notes[k] + updates]
  {
    FindDomainIndex(entries, domain);
    var i := FindIndex(entries, DomainIs(domain)).value;
    var notes := entries[i].notes;
    var k := FindIndex(notes, IdIs(id)).value;
    assert forall j :: 0 <= j < |notes| ==> (IdIs(id)(notes[j]) <==> HasId(notes[j], id));
    assert FirstNote(notes, id, k);
    var r := UpdateNote(entries, domain, id, updates).value;
    assert FirstEntry(r, domain, i);
  }

  /** Updating a note of one domain leaves the notes of every other domain as they were. */
  lemma UpdateKeepsOtherDomains(entries: seq<SiteEntry>, domain: string, id: string, updates: Note, other: string)
    requires other != domain && UpdateNote(entries, domain, id, updates).Ok?
    ensures GetSiteNotes(UpdateNote(entries, domain, id, updates).value, other) == GetSiteNotes(entries, other)
  {
    var i := FindIndex(entries, DomainIs(domain)).value;
    var notes := entries[i].notes;
    var k := FindIndex(notes, IdIs(id)).value;
    FindUpdateElsewhere(entries, i, entries[i].(notes := notes[k := notes[k] + updates]), DomainIs(other));
  }

  /** After a deletion the domain's notes are its old notes without those carrying the id. */
  lemma DeleteThenGet(entries: seq<SiteEntry>, domain: string, id: string)
    requires DeleteNote(entries, domain, id).Ok?
    ensures GetSiteNotes(DeleteNote(entries, domain, id).value, domain) ==
            Filter(GetSiteNotes(entries, domain), IdIsNot(id))
  {
    FindDomainIndex(entries, domain);
    var i := FindIndex(entries, DomainIs(domain)).value;
    var kept := Filter(entries[i].notes, IdIsNot(id));
    var r := DeleteNote(entries, domain, id).value;
    if |kept| > 0 {
      assert FirstEntry(r, domain, i);
    }
  }

  /** In particular no note left for the domain carries the deleted id. */
  lemma DeleteRemovesId(entries: seq<SiteEntry>, domain: string, id: string)
    requires DeleteNote(entries, domain, id).Ok?
    ensures forall n :: n in GetSiteNotes(DeleteNote(entries, domain, id).value, domain) ==> !HasId(n, id)
  {
    DeleteThenGet(entries, domain, id);
  }

  /**
   * When the deletion leaves the first entry without notes, every entry for
   * the domain goes, exactly as `deleteSiteNotes` would do; otherwise the
   * number of entries does not change.
   */
  lemma DeleteLastNoteDropsDomain(entries: seq<SiteEntry>, domain: string, id: string)
    requires HasDomain(entries, domain)
    ensures |Filter(GetSiteNotes(entries, domain), IdIsNot(id))| == 0 ==>
              DeleteNote(entries, domain, id) == Ok(DeleteDomain(entries, domain))
    ensures |Filter(GetSiteNotes(entries, domain), IdIsNot(id))| > 0 ==>
              |DeleteNote(entries, domain, id).value| == |entries|
  {
    FindDomainIndex(entries, domain);
  }

  /** Deleting a note of one domain leaves the notes of every other domain as they were. */
  lemma DeleteKeepsOtherDomains(entries: seq<SiteEntry>, domain: string, id: string, other: string)
    requires other != domain && DeleteNote(entries, domain, id).Ok?
    ensures GetSiteNotes(DeleteNote(entries, domain, id).value, other) == GetSiteNotes(entries, other)
  {
    var i := FindIndex(entries, DomainIs(domain)).value;
    var kept := Filter(entries[i].notes, IdIsNot(id));
    if |kept| == 0 {
      DeleteDomainKeepsOtherDomains(entries, domain, other);
    } else {
      FindUpdateElsewhere(entries, i, entries[i].(notes := kept), DomainIs(other));
    }
  }

  /** Deleting a domain's entries leaves the notes of every other domain as they were. */
  lemma DeleteDomainKeepsOtherDomains(entries: seq<SiteEntry>, domain: string, other: string)
    requires other != domain
    ensures GetSiteNotes(DeleteDomain(entries, domain), other) == GetSiteNotes(entries, other)
  {
    forall site: SiteEntry | DomainIs(other)(site)
      ensures DomainIsNot(domain)(site)
    {
    }
    FindAfterFilter(entries, DomainIs(other), DomainIsNot(domain));
  }

  /** Deleting a domain's entries twice is deleting them once. */
  lemma DeleteDomainIdempotent(entries: seq<SiteEntry>, domain: string)
    ensures DeleteDomain(DeleteDomain(entries, domain), domain) == DeleteDomain(entries, domain)
  {
    FilterIdempotent(entries, DomainIsNot(domain));
  }

  /** The remaining entries keep their original order: deletion works piece by piece. */
  lemma DeleteDomainKeepsOrder(front: seq<SiteEntry>, back: seq<SiteEntry>, domain: string)
    ensures DeleteDomain(front + back, domain) == DeleteDomain(front, domain) + DeleteDomain(back, domain)
  {
    FilterAppend(front, back, DomainIsNot(domain));
  }

  /** The handler's reply: `{success: true}` or `{success: false, error}`. */
  datatype Reply = Done | Failed(error: string)

  /** `error.toString()` of an `Error` thrown with `message`. */
  function ErrorText(message: string): (text: string) {
    "Error: " + message
  }

  /** The browser's local storage as the note handlers see it: the value under the "config" key. */
  class ExtensionStorage {
    var stored: Option<Config>

    constructor (initial: Option<Config>)
      ensures stored == initial
    {
      stored := initial;
    }

    /** `getConfig()`. */
    function Snapshot(): (config: Config)
      reads this
    {
      GetConfig(stored)
    }

    /** `getSiteNotes`: the notes of the first entry for the domain, or none; storage is not written. */
    method ReadSiteNotes(domain: string) returns (notes: seq<Note>)
      ensures !HasDomain(Snapshot().siteNotes, domain) ==> notes == []
      ensures forall i: nat :: FirstEntry(Snapshot().siteNotes, domain, i) ==> notes == Snapshot().siteNotes[i].notes
    {
      var config := GetConfig(stored);
      var found := Find(config.siteNotes, DomainIs(domain));
      notes := if found.Some? then found.value.notes else [];
      FindDomainIndex(config.siteNotes, domain);
    }

    /** `updateConfig(updates)`: store the current configuration with `updates` spread over it. */
    method UpdateConfig(updates: ConfigUpdate) returns (reply: Reply)
      modifies this
      ensures reply == Done
      ensures stored == Some(MergeConfig(old(Snapshot()), updates))
    {
      var config := GetConfig(stored);
      stored := Some(MergeConfig(config, updates));
      reply := Done;
    }

    /** `addSiteNote`: create the entry when missing, then push the note. */
    method AddSiteNote(domain: string, note: Note) returns (reply: Reply)
      modifies this
      ensures reply == Done
      ensures stored == Some(old(Snapshot()).(siteNotes := AddNote(old(Snapshot()).siteNotes, domain, note)))
    {
      var config := GetConfig(stored);
      var siteNotes := config.siteNotes;
      var found := FindIndex(siteNotes, DomainIs(domain));
      var i: nat;
      if found.None? {
        siteNotes := siteNotes + [SiteEntry(domain, [])];
        i := |siteNotes| - 1;
      } else {
        i := found.value;
      }
      siteNotes := siteNotes[i := siteNotes[i].(notes := siteNotes[i].notes + [note])];
      assert siteNotes == AddNote(config.siteNotes, domain, note) by {
        if found.None? {
          assert [] + [note] == [note];
          assert siteNotes == config.siteNotes + [SiteEntry(domain, [note])];
        }
      }
      reply := UpdateConfig(ConfigUpdate(None, None, Some(siteNotes)));
    }

    /** `updateSiteNote`: spread `updates` over the first note with the id in the first entry for the domain. */
    method UpdateSiteNote(domain: string, noteId: string, updates: Note) returns (reply: Reply)
      modifies this
      ensures match UpdateNote(old(Snapshot()).siteNotes, domain, noteId, updates)
              case Err(e) => reply == Failed(ErrorText(e)) && stored == old(stored)
              case Ok(entries) => reply == Done && stored == Some(old(Snapshot()).(siteNotes := entries))
    {
      var config := GetConfig(stored);
      var siteNotes := config.siteNotes;
      var found := FindIndex(siteNotes, DomainIs(domain));
      if found.None? {
        reply := Failed(ErrorText(DomainNotFound));
        return;
      }
      var i := found.value;
      var noteIndex := FindIndex(siteNotes[i].notes, IdIs(noteId));
      if noteIndex.None? {
        reply := Failed(ErrorText(NoteNotFound));
        return;
      }
      var k := noteIndex.value;
      var notes := siteNotes[i].notes[k := siteNotes[i].notes[k] + updates];
      siteNotes := siteNotes[i := siteNotes[i].(notes := notes)];
      reply := UpdateConfig(ConfigUpdate(None, None, Some(siteNotes)));
    }

    /** `deleteSiteNote`: drop the notes with the id; drop the domain once it has no notes left. */
    method DeleteSiteNote(domain: string, noteId: string) returns (reply: Reply)
      modifies this
      ensures match DeleteNote(old(Snapshot()).siteNotes, domain, noteId)
              case Err(e) => reply == Failed(ErrorText(e)) && stored == old(stored)
              case Ok(entries) => reply == Done && stored == Some(old(Snapshot()).(siteNotes := entries))
    {
      var config := GetConfig(stored);
      var siteNotes := config.siteNotes;
      var found := FindIndex(siteNotes, DomainIs(domain));
      if found.None? {
        reply := Failed(ErrorText(DomainNotFound));
        return;
      }
      var i := found.value;
      var entry := siteNotes[i].(notes := Filter(siteNotes[i].notes, IdIsNot(noteId)));
      siteNotes := siteNotes[i := entry];
      if |siteNotes[i].notes| == 0 {
        FilterUpdateDropped(config.siteNotes, i, entry, DomainIsNot(domain));
        siteNotes := Filter(siteNotes, DomainIsNot(domain));
      }
      reply := UpdateConfig(ConfigUpdate(None, None, Some(siteNotes)));
    }

    /** `deleteSiteNotes`: drop every entry for the domain. */
    method DeleteSiteNotes(domain: string) returns (reply: Reply)
      modifies this
      ensures reply == Done
      ensures stored == Some(old(Snapshot()).(siteNotes := DeleteDomain(old(Snapshot()).siteNotes, domain)))
    {
      var config := GetConfig(stored);
      var siteNotes := Filter(config.siteNotes, DomainIsNot(domain));
      reply := UpdateConfig(ConfigUpdate(None, None, Some(siteNotes)));
    }
  }
}
