/**
 * The profile list of the browser page (src/app/page.tsx): saving the form
 * (`upsert`), deleting (`remove`), loading a record into the form
 * (`startEdit`), the search and first-letter filter, and the combined script
 * download. `isValidProfile` and `buildBatScript` belong to a module that is
 * not part of this model and are parameters here.
 */
module Registry {
  import opened Wrappers
  import opened Text
  import opened Seqs
  import opened Profiles

  /** The text `upsert` compares to spot the same kind and host: `kind:host` with the host lower-cased. */
  function ClientKey(p: Profile): string {
    KindName(p.kind) + ":" + Lower(p.host)
  }

  /** `prev.findIndex(x => x.id === id)`. */
  function IndexOfId(prev: seq<Profile>, id: string): (i: int)
    ensures -1 <= i < |prev|
    ensures i == -1 <==> forall j :: 0 <= j < |prev| ==> prev[j].id != id
    ensures 0 <= i ==> prev[i].id == id && forall j :: 0 <= j < i ==> prev[j].id != id
  {
    FindIndex(prev, (x: Profile) => x.id == id)
  }

  /** `prev.findIndex(x => key(x) === key)`. */
  function IndexOfKey(prev: seq<Profile>, key: string): (i: int)
    ensures -1 <= i < |prev|
    ensures i == -1 <==> forall j :: 0 <= j < |prev| ==> ClientKey(prev[j]) != key
    ensures 0 <= i ==> ClientKey(prev[i]) == key && forall j :: 0 <= j < i ==> ClientKey(prev[j]) != key
  {
    FindIndex(prev, (x: Profile) => ClientKey(x) == key)
  }

  /**
   * The step that takes over the id of a record with the same kind and host,
   * as written: it looks at `base.id`, which is empty only when the form
   * carried the empty string as its id.
   */
  function AdoptExistingId(prev: seq<Profile>, base: Profile): (r: Profile)
    ensures r == base.(id := r.id)
    ensures r.id != base.id ==>
      (base.id == "" && 0 <= IndexOfKey(prev, ClientKey(base)) && r.id == prev[IndexOfKey(prev, ClientKey(base))].id)
    ensures base.id == "" && IndexOfKey(prev, ClientKey(base)) != -1 ==> r.id == prev[IndexOfKey(prev, ClientKey(base))].id
  {
    var existingIdx := IndexOfKey(prev, ClientKey(base));
    if base.id == "" && existingIdx != -1 then base.(id := prev[existingIdx].id) else base
  }

  /**
   * The list after saving `base`: the first record with the same id is
   * replaced where it stands and keeps its creation time; with no such
   * record, `base` goes to the front, stamped with `now` if it has no
   * creation time.
   */
  function UpdateRegistry(prev: seq<Profile>, base: Profile, now: string): (r: seq<Profile>)
    requires now != ""
    ensures var i := IndexOfId(prev, base.id);
      if i == -1 then
        && |r| == |prev| + 1
        && r == [base.(createdAt := r[0].createdAt)] + prev
        && r[0].createdAt != ""
        && (base.createdAt != "" ==> r[0].createdAt == base.createdAt)
        && (base.createdAt == "" ==> r[0].createdAt == now)
      else
        && |r| == |prev|
        && r[i] == base.(createdAt := prev[i].createdAt)
        && forall j :: 0 <= j < |r| && j != i ==> r[j] == prev[j]
  {
    var idx := IndexOfId(prev, base.id);
    if idx == -1 then
      [base.(createdAt := if base.createdAt != "" then base.createdAt else now)] + prev
    else
      var existing := prev[idx];
      prev[idx := base.(createdAt := existing.createdAt)]
  }

  /**
   * What the `setProfiles` updater of `upsert` makes of the list: nothing
   * changes when the normalised form fails `isValid`.
   */
  function Upserted(prev: seq<Profile>, d: Draft, freshId: string, now: string, isValid: Profile -> bool): (r: seq<Profile>)
    requires freshId != "" && now != ""
    ensures !isValid(Normalize(d, freshId, now)) ==> r == prev
    ensures isValid(Normalize(d, freshId, now)) && (d.id.None? || d.id.value != "") ==>
      r == UpdateRegistry(prev, Normalize(d, freshId, now), now)
    ensures isValid(Normalize(d, freshId, now)) && d.id == Some("") ==>
      r == UpdateRegistry(prev, AdoptExistingId(prev, Normalize(d, freshId, now)), now)
  {
    var base := Normalize(d, freshId, now);
    if !isValid(base) then prev else UpdateRegistry(prev, AdoptExistingId(prev, base), now)
  }

  /**
   * Saving a record unchanged through the form replaces it where it stands
   * and only refreshes its `updatedAt`.
   */
  lemma SaveUnchangedRefreshesOnly(prev: seq<Profile>, i: nat, freshId: string, now: string, isValid: Profile -> bool)
    requires freshId != "" && now != ""
    requires i < |prev| && IndexOfId(prev, prev[i].id) == i
    requires NormalForm(prev[i]) && prev[i].id != ""
    requires isValid(prev[i].(createdAt := "", updatedAt := now))
    ensures Upserted(prev, EditDraft(prev[i]), freshId, now, isValid) == prev[i := prev[i].(updatedAt := now)]
  {
    var p := prev[i];
    EditRoundTrip(p, freshId, now);
    var r := Upserted(prev, EditDraft(p), freshId, now, isValid);
    assert r == UpdateRegistry(prev, p.(createdAt := "", updatedAt := now), now);
  }

  /** `prev.filter(p => p.id !== id)`. */
  function Removed(prev: seq<Profile>, id: string): (r: seq<Profile>)
    ensures forall p :: p in r ==> p.id != id
    ensures forall p :: multiset(r)[p] == if p.id != id then multiset(prev)[p] else 0
    ensures IsSubsequence(r, prev)
    ensures (forall j :: 0 <= j < |prev| ==> prev[j].id != id) ==> r == prev
  {
    var keep := (p: Profile) => p.id != id;
    FilterIsSubsequence(prev, keep);
    FilterKeepsAll(prev, keep);
    Filter(prev, keep)
  }

  /** A profile matches a non-empty lower-cased query when its name or host contains it. */
  predicate MatchesQuery(p: Profile, q: string) {
    Contains(Lower(p.name), q) || Contains(Lower(p.host), q)
  }

  /** A profile matches a lower-cased letter when its trimmed name starts with it. */
  predicate MatchesLetter(p: Profile, l: string) {
    StartsWith(Lower(Trim(p.name)), l)
  }

  /** Whether the list shows `p` for this search text and letter (a letter counts when it is set and non-empty). */
  predicate Shown(p: Profile, search: string, activeLetter: Option<string>) {
    && (Lower(Trim(search)) == "" || MatchesQuery(p, Lower(Trim(search))))
    && (!IsSet(activeLetter) || MatchesLetter(p, Lower(activeLetter.value)))
  }

  /**
   * The list the page shows (`filteredProfiles`): the search filter, then
   * the letter filter. Exactly the shown profiles, as often and in the
   * order they are stored.
   */
  function Filtered(profiles: seq<Profile>, search: string, activeLetter: Option<string>): (r: seq<Profile>)
    ensures forall p :: multiset(r)[p] == if Shown(p, search, activeLetter) then multiset(profiles)[p] else 0
    ensures forall p :: p in r <==> p in profiles && Shown(p, search, activeLetter)
    ensures IsSubsequence(r, profiles)
  {
    var q := Lower(Trim(search));
    var bySearch := (p: Profile) => q == "" || MatchesQuery(p, q);
    var byLetter := (p: Profile) => !IsSet(activeLetter) || MatchesLetter(p, Lower(activeLetter.value));
    var shown := (p: Profile) => Shown(p, search, activeLetter);
    var list := if q != "" then Filter(profiles, bySearch) else profiles;
    var list' := if IsSet(activeLetter) then Filter(list, byLetter) else list;
    FilterKeepsAll(profiles, bySearch);
    FilterKeepsAll(Filter(profiles, bySearch), byLetter);
    FilterFilter(profiles, bySearch, byLetter, shown);
    FilterIsSubsequence(profiles, shown);
    list'
  }

  /** One section of the combined script: a banner naming the profile and its kind, then its script. */
  function Section(p: Profile, script: Profile -> string): string {
    ":: ===== " + p.name + " (" + Upper(KindName(p.kind)) + ") =====\r\n" + script(p) + "\r\n"
  }

  function Sections(profiles: seq<Profile>, script: Profile -> string): (r: seq<string>)
    ensures |r| == |profiles|
  {
    seq(|profiles|, i requires 0 <= i < |profiles| => Section(profiles[i], script))
  }

  /** The text of `downloadAllBat`: every profile's section, in list order, joined by blank lines. */
  function CombinedScript(profiles: seq<Profile>, script: Profile -> string): string {
    Join(Sections(profiles, script), "\r\n")
  }

  /**
   * The combined script is the sections in list order: the `i`-th stands
   * whole after the sections before it and a line break each, and is
   * followed by a line break, or by nothing when it is the last.
   */
  lemma CombinedSectionAt(profiles: seq<Profile>, script: Profile -> string, i: nat)
    requires i < |profiles|
    ensures var at, len := Offset(Sections(profiles, script), "\r\n", i), |Section(profiles[i], script)|;
      && at + len <= |CombinedScript(profiles, script)|
      && CombinedScript(profiles, script)[at..at + len] == Section(profiles[i], script)
      && (i + 1 < |profiles| ==>
            at + len + 2 <= |CombinedScript(profiles, script)| &&
            CombinedScript(profiles, script)[at + len..at + len + 2] == "\r\n")
      && (i + 1 == |profiles| ==> at + len == |CombinedScript(profiles, script)|)
  {
    var parts := Sections(profiles, script);
    JoinPartAt(parts, "\r\n", i);
    JoinLength(parts, "\r\n");
    assert parts[i] == Section(profiles[i], script);
  }

  /** No two records share an id. */
  predicate UniqueIds(ps: seq<Profile>) {
    forall i, j :: 0 <= i < j < |ps| ==> ps[i].id != ps[j].id
  }

  /** No two records share a kind and a (lower-cased) host. */
  predicate UniqueKeys(ps: seq<Profile>) {
    forall i, j :: 0 <= i < j < |ps| ==> ClientKey(ps[i]) != ClientKey(ps[j])
  }

  /**
   * As written, a new form (no id) whose kind and host match a stored record
   * is still added as a second record: the check on `base.id` never sees an
   * empty id, because `base.id` was already set to a fresh one.
   */
  lemma CreateDuplicatesKeyAsWritten(isValid: Profile -> bool)
    requires isValid(Normalize(Draft(None, "Box", Ssh, "H", Some(22), Some(""), Some(""), Some(""), Some(true), Some(false), Some("")), "b", "t"))
    ensures var stored := Profile("a", "Box", Ssh, "h", Some(22), Some(""), None, None, None, None, Some(""), "t0", "t0");
      var r := Upserted([stored], Draft(None, "Box", Ssh, "H", Some(22), Some(""), Some(""), Some(""), Some(true), Some(false), Some("")), "b", "t", isValid);
      |r| == 2 && ClientKey(r[0]) == ClientKey(r[1]) && !UniqueKeys(r)
  {
    var stored := Profile("a", "Box", Ssh, "h", Some(22), Some(""), None, None, None, None, Some(""), "t0", "t0");
    var d := Draft(None, "Box", Ssh, "H", Some(22), Some(""), Some(""), Some(""), Some(true), Some(false), Some(""));
    var base := Normalize(d, "b", "t");
    assert Trim("H") == "H";
    assert base.id == "b" && base.host == "H";
    assert IndexOfId([stored], "b") == -1;
    var r := Upserted([stored], d, "b", "t", isValid);
    assert r[0].host == "H" && r[1] == stored;
    assert Lower("H") == "h" == Lower("h");
  }

  /**
   * The key check as its comment describes it: a new form (no id, or the
   * empty id) whose kind and host match a stored record takes over that
   * record's id, so the save edits it instead of adding a duplicate.
   */
  function AdoptExistingIdIntended(prev: seq<Profile>, d: Draft, base: Profile): (r: Profile)
    ensures r == base.(id := r.id)
    ensures !IsSet(d.id) && 0 <= IndexOfKey(prev, ClientKey(base)) ==> r.id == prev[IndexOfKey(prev, ClientKey(base))].id
    ensures IsSet(d.id) || IndexOfKey(prev, ClientKey(base)) == -1 ==> r == base
  {
    var existingIdx := IndexOfKey(prev, ClientKey(base));
    if !IsSet(d.id) && existingIdx != -1 then base.(id := prev[existingIdx].id) else base
  }

  /** The `upsert` updater with the key check on the form's id. */
  function UpsertedIntended(prev: seq<Profile>, d: Draft, freshId: string, now: string, isValid: Profile -> bool): (r: seq<Profile>)
    requires freshId != "" && now != ""
    ensures !isValid(Normalize(d, freshId, now)) ==> r == prev
  {
    var base := Normalize(d, freshId, now);
    if !isValid(base) then prev else UpdateRegistry(prev, AdoptExistingIdIntended(prev, d, base), now)
  }

  /**
   * With the key check on the form's id, creating a record from a new form
   * keeps ids and kind-and-host keys unique, and a new form that matches a
   * stored record edits it in place.
   */
  lemma CreateKeepsIdentityIntended(prev: seq<Profile>, d: Draft, freshId: string, now: string, isValid: Profile -> bool)
    requires freshId != "" && now != ""
    requires d.id.None?
    requires UniqueIds(prev) && UniqueKeys(prev)
    requires forall j :: 0 <= j < |prev| ==> prev[j].id != freshId
    ensures UniqueIds(UpsertedIntended(prev, d, freshId, now, isValid))
    ensures UniqueKeys(UpsertedIntended(prev, d, freshId, now, isValid))
    ensures 0 <= IndexOfKey(prev, ClientKey(Normalize(d, freshId, now))) ==>
      |UpsertedIntended(prev, d, freshId, now, isValid)| == |prev|
  {
    var base := Normalize(d, freshId, now);
    var r := UpsertedIntended(prev, d, freshId, now, isValid);
    if isValid(base) {
      var k := IndexOfKey(prev, ClientKey(base));
      var adopted := AdoptExistingIdIntended(prev, d, base);
      if k == -1 {
        assert adopted == base && IndexOfId(prev, freshId) == -1;
        assert r == [r[0]] + prev && ClientKey(r[0]) == ClientKey(base) && r[0].id == freshId;
        forall i, j | 0 <= i < j < |r| ensures r[i].id != r[j].id && ClientKey(r[i]) != ClientKey(r[j]) {
          if i == 0 {
            assert r[j] == prev[j - 1];
          } else {
            assert r[i] == prev[i - 1] && r[j] == prev[j - 1];
          }
        }
      } else {
        assert adopted.id == prev[k].id;
        assert IndexOfId(prev, prev[k].id) == k;
        assert ClientKey(r[k]) == ClientKey(prev[k]) && r[k].id == prev[k].id;
        forall i, j | 0 <= i < j < |r| ensures r[i].id != r[j].id && ClientKey(r[i]) != ClientKey(r[j]) {
          assert ClientKey(r[i]) == ClientKey(prev[i]) && r[i].id == prev[i].id;
          assert ClientKey(r[j]) == ClientKey(prev[j]) && r[j].id == prev[j].id;
        }
      }
    }
  }

  /**
   * The state of the page that the model keeps: the stored list and the
   * edit form.
   */
  class Home {
    var profiles: seq<Profile>
    var draft: Draft

    constructor ()
      ensures profiles == [] && draft == EmptyDraft()
    {
      profiles := [];
      draft := EmptyDraft();
    }

    /** `resetDraft`. */
    method ResetDraft()
      modifies this
      ensures draft == EmptyDraft() && profiles == old(profiles)
    {
      draft := EmptyDraft();
    }

    /** `startEdit`: the form now holds `p`, with the form's defaults for its missing fields. */
    method StartEdit(p: Profile)
      modifies this
      ensures draft == EditDraft(p) && profiles == old(profiles)
    {
      draft := EditDraft(p);
    }

    /**
     * `upsert`: normalise the form; when valid, save it into the list and
     * clear the form; otherwise change nothing.
     */
    method Upsert(freshId: string, now: string, isValid: Profile -> bool)
      requires freshId != "" && now != ""
      modifies this
      ensures profiles == Upserted(old(profiles), old(draft), freshId, now, isValid)
      ensures draft == if isValid(Normalize(old(draft), freshId, now)) then EmptyDraft() else old(draft)
    {
      var base := Normalize(draft, freshId, now);
      if !isValid(base) {
        return;
      }
      var prev := profiles;
      var existingIdx := IndexOfKey(prev, ClientKey(base));
      if base.id == "" && existingIdx != -1 {
        base := base.(id := prev[existingIdx].id);
      }
      var idx := IndexOfId(prev, base.id);
      if idx == -1 {
        profiles := [base.(createdAt := if base.createdAt != "" then base.createdAt else now)] + prev;
      } else {
        var existing := prev[idx];
        profiles := prev[idx := base.(createdAt := existing.createdAt)];
      }
      ResetDraft();
    }

    /** `remove`: drop every record with this id, and clear the form if it was editing that id. */
    method Remove(id: string)
      modifies this
      ensures profiles == Removed(old(profiles), id)
      ensures draft == if old(draft).id == Some(id) then EmptyDraft() else old(draft)
    {
      profiles := Removed(profiles, id);
      if draft.id == Some(id) {
        ResetDraft();
      }
    }

    /** `filteredProfiles` for the current list. */
    function FilteredProfiles(search: string, activeLetter: Option<string>): (r: seq<Profile>)
      reads this
      ensures forall p :: p in r <==> p in profiles && Shown(p, search, activeLetter)
    {
      Filtered(profiles, search, activeLetter)
    }
  }
}
