/**
 * The shortcut profile as the browser page handles it: the stored record, the
 * edit form's draft, how a draft is normalised into a record (`upsert`,
 * src/app/page.tsx) and how a record is loaded back into the form (`startEdit`).
 */
module Profiles {
  import opened Wrappers
  import opened Text

  datatype Kind = Rdp | Ssh

  /** The text of a kind as it appears in keys and JSON: "rdp" or "ssh". */
  function KindName(k: Kind): string {
    match k
    case Rdp => "rdp"
    case Ssh => "ssh"
  }

  /**
   * One stored shortcut. Optional fields are `None` when the JSON record has
   * no such key (or holds `undefined`).
   */
  datatype Profile = Profile(
    id: string,
    name: string,
    kind: Kind,
    host: string,
    port: Option<int>,
    username: Option<string>,
    rdpUsername: Option<string>,
    rdpFullscreen: Option<bool>,
    rdpAdmin: Option<bool>,
    password: Option<string>,
    note: Option<string>,
    createdAt: string,
    updatedAt: string)

  /** The edit form: a profile without timestamps, whose id is set only while editing. */
  datatype Draft = Draft(
    id: Option<string>,
    name: string,
    kind: Kind,
    host: string,
    port: Option<int>,
    username: Option<string>,
    rdpUsername: Option<string>,
    password: Option<string>,
    rdpFullscreen: Option<bool>,
    rdpAdmin: Option<bool>,
    note: Option<string>)

  /** JavaScript truthiness of an optional string: present and non-empty. */
  predicate IsSet(s: Option<string>) {
    s.Some? && s.value != ""
  }

  /** The blank form the page starts with and returns to after a save. */
  function EmptyDraft(): (d: Draft)
    ensures d.id.None? && d.kind == Rdp && d.name == "" && d.host == ""
  {
    Draft(None, "", Rdp, "", Some(22), Some(""), Some(""), Some(""), Some(true), Some(false), Some(""))
  }

  /**
   * The shape a saved profile has: text fields trimmed, a password only when
   * it is non-empty, a note always, and exactly the fields of its own kind.
   */
  predicate NormalForm(p: Profile) {
    && p.name == Trim(p.name)
    && p.host == Trim(p.host)
    && p.note.Some? && p.note.value == Trim(p.note.value)
    && (p.password.Some? ==> p.password.value != "" && p.password.value == Trim(p.password.value))
    && (p.kind == Ssh ==>
         && p.port.Some?
         && p.username.Some? && p.username.value == Trim(p.username.value)
         && p.rdpUsername.None? && p.rdpFullscreen.None? && p.rdpAdmin.None?)
    && (p.kind == Rdp ==>
         && p.port.None? && p.username.None?
         && p.rdpUsername.Some? && p.rdpUsername.value == Trim(p.rdpUsername.value)
         && p.rdpFullscreen.Some? && p.rdpAdmin.Some?)
  }

  /** `field?.trim() ?? ""`: a form field trimmed, the empty string when absent. */
  function TrimmedOrEmpty(field: Option<string>): (r: string)
    ensures r == Trim(field.GetOr("")) && r == Trim(r)
  {
    TrimIdempotent(field.GetOr(""));
    if field.Some? then Trim(field.value) else ""
  }

  /** `password?.trim() || undefined`: the trimmed password, absent when that is empty. */
  function KeptPassword(password: Option<string>): (r: Option<string>)
    ensures r.None? <==> password.None? || Trim(password.value) == ""
    ensures r.Some? ==> r == Some(Trim(password.value)) && r.value == Trim(r.value)
  {
    var t := TrimmedOrEmpty(password);
    if t != "" then Some(t) else None
  }

  /** A kind-specific field: its value for that kind, absent (`undefined`) for the other. */
  function OnlyFor<T>(k: Kind, wanted: Kind, value: T): (r: Option<T>)
    ensures r == if k == wanted then Some(value) else None
  {
    if k == wanted then Some(value) else None
  }

  /**
   * The record `upsert` builds from the form before validating it. `freshId`
   * stands for `uid()` and `now` for `nowIso()`.
   */
  function Normalize(d: Draft, freshId: string, now: string): (r: Profile)
    requires freshId != "" && now != ""
    ensures NormalForm(r)
    ensures r.id == d.id.GetOr(freshId) && (r.id != "" <==> d.id.None? || d.id.value != "")
    ensures r.kind == d.kind && r.name == Trim(d.name) && r.host == Trim(d.host)
    ensures r.note == Some(Trim(d.note.GetOr("")))
    ensures r.kind == Ssh ==>
      && r.port == Some(d.port.GetOr(22))
      && r.username == Some(Trim(d.username.GetOr("")))
    ensures r.kind == Rdp ==>
      && r.rdpUsername == Some(Trim(d.rdpUsername.GetOr("")))
      && r.rdpFullscreen == Some(d.rdpFullscreen == Some(true))
      && r.rdpAdmin == Some(d.rdpAdmin == Some(true))
    ensures r.password.None? <==> d.password.None? || Trim(d.password.value) == ""
    ensures r.password.Some? ==> r.password == Some(Trim(d.password.value))
    ensures r.createdAt == (if IsSet(d.id) then "" else now) && r.updatedAt == now
  {
    TrimIdempotent(d.name);
    TrimIdempotent(d.host);
    Profile(
      id := d.id.GetOr(freshId),
      name := Trim(d.name),
      kind := d.kind,
      host := Trim(d.host),
      port := OnlyFor(d.kind, Ssh, d.port.GetOr(22)),
      username := OnlyFor(d.kind, Ssh, TrimmedOrEmpty(d.username)),
      rdpUsername := OnlyFor(d.kind, Rdp, TrimmedOrEmpty(d.rdpUsername)),
      rdpFullscreen := OnlyFor(d.kind, Rdp, d.rdpFullscreen == Some(true)),
      rdpAdmin := OnlyFor(d.kind, Rdp, d.rdpAdmin == Some(true)),
      password := KeptPassword(d.password),
      note := Some(TrimmedOrEmpty(d.note)),
      createdAt := if IsSet(d.id) then "" else now,
      updatedAt := now)
  }

  /** The form `startEdit` fills from a stored record, with the form's defaults for missing fields. */
  function EditDraft(p: Profile): (d: Draft)
    ensures d.id == Some(p.id) && d.kind == p.kind && d.name == p.name && d.host == p.host
  {
    Draft(
      id := Some(p.id),
      name := p.name,
      kind := p.kind,
      host := p.host,
      port := Some(p.port.GetOr(22)),
      username := Some(p.username.GetOr("")),
      rdpUsername := Some(p.rdpUsername.GetOr("")),
      password := Some(p.password.GetOr("")),
      rdpFullscreen := Some(p.rdpFullscreen.GetOr(true)),
      rdpAdmin := Some(p.rdpAdmin.GetOr(false)),
      note := Some(p.note.GetOr("")))
  }

  /**
   * Loading a saved record into the form and saving it unchanged gives back
   * the same record, apart from the timestamps `upsert` sets.
   */
  lemma EditRoundTrip(p: Profile, freshId: string, now: string)
    requires freshId != "" && now != ""
    requires NormalForm(p) && p.id != ""
    ensures Normalize(EditDraft(p), freshId, now) == p.(createdAt := "", updatedAt := now)
  {
    var r := Normalize(EditDraft(p), freshId, now);
    SharedFieldsRoundTrip(p, freshId, now);
    KindFieldsRoundTrip(p, freshId, now);
    assert r == Profile(p.id, p.name, p.kind, p.host, p.port, p.username, p.rdpUsername,
      p.rdpFullscreen, p.rdpAdmin, p.password, p.note, "", now);
  }

  /** The fields every kind has survive `startEdit` followed by `upsert`. */
  lemma SharedFieldsRoundTrip(p: Profile, freshId: string, now: string)
    requires freshId != "" && now != ""
    requires NormalForm(p) && p.id != ""
    ensures var r := Normalize(EditDraft(p), freshId, now);
      && r.id == p.id && r.name == p.name && r.kind == p.kind && r.host == p.host
      && r.note == p.note && r.password == p.password && r.createdAt == "" && r.updatedAt == now
  {
    var r := Normalize(EditDraft(p), freshId, now);
    if p.password.None? {
      assert Trim("") == "";
    }
  }

  /** The fields of the record's own kind survive, and those of the other kind stay absent. */
  lemma KindFieldsRoundTrip(p: Profile, freshId: string, now: string)
    requires freshId != "" && now != ""
    requires NormalForm(p)
    ensures var r := Normalize(EditDraft(p), freshId, now);
      && r.port == p.port && r.username == p.username && r.rdpUsername == p.rdpUsername
      && r.rdpFullscreen == p.rdpFullscreen && r.rdpAdmin == p.rdpAdmin
  {
    var d := EditDraft(p);
    if p.kind == Rdp {
      var full, admin := p.rdpFullscreen.value, p.rdpAdmin.value;
      assert d.rdpFullscreen == Some(full) && d.rdpAdmin == Some(admin);
      assert (Some(full) == Some(true)) == full && (Some(admin) == Some(true)) == admin;
    }
  }
}
