/**
 * The admin's company page: the optimistic update of the users table after an
 * availability switch (the user leaves the page when it no longer matches the
 * "only available" filter, otherwise only its flag changes), the step back to the
 * previous page when the table empties, and the user editor with its "make director"
 * rule.
 */
module CompanyDetails {
  import opened Wrappers
  import opened JsText
  import opened Seqs
  import opened Domain
  import opened CompanyUsers

  // ---------------------------------------------------------------- optimistic toggle

  /** `content.findIndex(it => it.id === id)`. */
  function FirstIndex(content: seq<UserDto>, id: int): (r: int)
    ensures -1 <= r < |content|
    ensures r == -1 <==> forall j :: 0 <= j < |content| ==> content[j].id != id
    ensures r >= 0 ==> content[r].id == id && forall j :: 0 <= j < r ==> content[j].id != id
    decreases |content|
  {
    if content == [] then -1
    else if content[0].id == id then 0
    else
      var r := FirstIndex(content[1..], id);
      assert forall j :: 1 <= j < |content| ==> content[j] == content[1..][j - 1];
      if r == -1 then -1 else r + 1
  }

  /** The page content after switching user `id` to `newAvail` under the filter `onlyAvailable`. */
  function Toggled(content: seq<UserDto>, id: int, newAvail: bool, onlyAvailable: bool): seq<UserDto> {
    var idx := FirstIndex(content, id);
    if idx < 0 then content
    else if onlyAvailable != newAvail then RemoveAt(content, idx)
    else content[idx := content[idx].(availability := newAvail)]
  }

  /** The `findIndex` loop. */
  method FindIndex(content: seq<UserDto>, id: int) returns (idx: int)
    ensures idx == FirstIndex(content, id)
  {
    idx := 0;
    while idx < |content|
      invariant 0 <= idx <= |content|
      invariant forall j :: 0 <= j < idx ==> content[j].id != id
    {
      if content[idx].id == id {
        return;
      }
      idx := idx + 1;
    }
    idx := -1;
  }

  /**
   * The `setUsersPage` updater of `toggleUserAvailability` after the request succeeded:
   * the content is copied, then the user's entry is spliced out or given its new flag.
   */
  method ToggleUserAvailability(prev: Option<Page<UserDto>>, u: UserDto, onlyAvailable: bool)
    returns (next: Option<Page<UserDto>>)
    ensures prev.None? ==> next.None?
    ensures prev.Some? ==> next == Some(prev.value.(content := Toggled(prev.value.content, u.id, !u.availability, onlyAvailable)))
  {
    if prev.None? {
      return prev;
    }
    var newAvail := !u.availability;
    var content := prev.value.content;
    var idx := FindIndex(content, u.id);
    if idx >= 0 {
      if onlyAvailable != newAvail {
        content := content[..idx] + content[idx + 1..];
      } else {
        content := content[idx := content[idx].(availability := newAvail)];
      }
    }
    next := Some(prev.value.(content := content));
  }

  /** A user who is not on the page leaves the page as it was. */
  lemma ToggleAbsentUnchanged(content: seq<UserDto>, id: int, newAvail: bool, onlyAvailable: bool)
    requires forall j :: 0 <= j < |content| ==> content[j].id != id
    ensures Toggled(content, id, newAvail, onlyAvailable) == content
  {
  }

  /** Leaving the filter removes exactly the first entry with that id; the others keep their order. */
  lemma ToggleOffFilterRemovesFirst(content: seq<UserDto>, id: int, newAvail: bool, onlyAvailable: bool)
    requires exists j :: 0 <= j < |content| && content[j].id == id
    requires onlyAvailable != newAvail
    ensures var r := Toggled(content, id, newAvail, onlyAvailable);
            exists idx :: 0 <= idx < |content| && content[idx].id == id
                          && (forall j :: 0 <= j < idx ==> content[j].id != id)
                          && r == content[..idx] + content[idx + 1..]
  {
    var idx := FirstIndex(content, id);
    assert Toggled(content, id, newAvail, onlyAvailable) == content[..idx] + content[idx + 1..];
  }

  /** Staying in the filter changes only that entry's availability; the length and all else stay. */
  lemma ToggleInFilterUpdatesOnly(content: seq<UserDto>, id: int, newAvail: bool, onlyAvailable: bool)
    requires onlyAvailable == newAvail
    ensures var r := Toggled(content, id, newAvail, onlyAvailable);
            var idx := FirstIndex(content, id);
            |r| == |content|
            && (forall j :: 0 <= j < |r| && j != idx ==> r[j] == content[j])
            && (idx >= 0 ==> r[idx] == content[idx].(availability := newAvail))
  {
  }

  /** If every listed user matched the filter before the switch, every listed user matches it after. */
  lemma ToggleKeepsPageFiltered(content: seq<UserDto>, id: int, newAvail: bool, onlyAvailable: bool)
    requires forall j :: 0 <= j < |content| ==> content[j].availability == onlyAvailable
    ensures var r := Toggled(content, id, newAvail, onlyAvailable);
            forall j :: 0 <= j < |r| ==> r[j].availability == onlyAvailable
  {
    var idx := FirstIndex(content, id);
    if idx >= 0 && onlyAvailable != newAvail {
      RemovedKeepFlag(content, idx, onlyAvailable);
    }
  }

  /** Proof step of `ToggleKeepsPageFiltered`: removing one entry keeps every remaining flag. */
  lemma RemovedKeepFlag(content: seq<UserDto>, idx: int, flag: bool)
    requires 0 <= idx < |content|
    requires forall j :: 0 <= j < |content| ==> content[j].availability == flag
    ensures forall j :: 0 <= j < |RemoveAt(content, idx)| ==> RemoveAt(content, idx)[j].availability == flag
  {
    var r := RemoveAt(content, idx);
    forall j | 0 <= j < |r| ensures r[j].availability == flag {
      if j < idx {
        assert r[j] == content[j];
      } else {
        assert r[j] == content[j + 1];
      }
    }
  }

  // ---------------------------------------------------------------- step back

  /** What the page does once the optimistic update has been applied. */
  datatype FollowUp = NoFollowUp | GoToPage(page: int) | ReloadUsers

  /**
   * The deferred check after the switch: an emptied page past the first steps back
   * to `Math.max(0, page - 1)`; any other loaded page is reloaded from the server.
   */
  function AfterToggle(current: Option<Page<UserDto>>, page: int): (r: FollowUp)
    ensures current.None? <==> r == NoFollowUp
    ensures r.GoToPage? <==> current.Some? && current.value.content == [] && page > 0
    ensures r.GoToPage? ==> 0 <= r.page < page && r.page == page - 1
  {
    if current.None? then NoFollowUp
    else if |current.value.content| == 0 && page > 0 then GoToPage(if page - 1 > 0 then page - 1 else 0)
    else ReloadUsers
  }

  /** Switching the last user of a later page out of the filter sends the table one page back. */
  lemma LastUserLeavingStepsBack(prev: Page<UserDto>, u: UserDto, onlyAvailable: bool, page: int)
    requires prev.content == [u] && u.availability == onlyAvailable && page > 0
    ensures var next := prev.(content := Toggled(prev.content, u.id, !u.availability, onlyAvailable));
            AfterToggle(Some(next), page) == GoToPage(page - 1)
  {
    assert FirstIndex(prev.content, u.id) == 0;
    assert Toggled(prev.content, u.id, !u.availability, onlyAvailable) == [];
  }

  // ---------------------------------------------------------------- user editor

  datatype EditUserForm = EditUserForm(name: string, surname: string, birthDate: string, email: string)

  /** `(u.birthDate || '').slice(0, 10)`: the date part of an ISO timestamp. */
  function DatePart(s: string): (r: string)
    ensures r <= s
    ensures |r| == if |s| < 10 then |s| else 10
  {
    if |s| <= 10 then s else s[..10]
  }

  /** `openEditUser`: the form copies the user, the flag says whether the user already is a director. */
  function OpenEditUser(u: UserDto): (r: (EditUserForm, bool))
    ensures r.0.name == u.name && r.0.surname == u.surname && r.0.email == u.email
    ensures r.0.birthDate <= u.birthDate && |r.0.birthDate| <= 10
    ensures r.1 <==> Upper(u.role) == "DIRECTOR"
  {
    (EditUserForm(u.name, u.surname, DatePart(u.birthDate), u.email), IsDirectorRole(u.role))
  }

  datatype UserRequest = PutUser(id: int, form: EditUserForm) | PromoteToDirector(id: int)

  /**
   * `doUpdateUser`: nothing without a user in the editor; otherwise the PUT, followed,
   * when it succeeded, by the promotion only if the flag is set and the user was not
   * already a director.
   */
  function UpdateUserRequests(editing: Option<UserDto>, form: EditUserForm, makeDirector: bool, putSucceeds: bool)
    : (r: seq<UserRequest>)
    ensures editing.None? <==> r == []
    ensures editing.Some? ==> r[0] == PutUser(editing.value.id, form)
    ensures |r| == 2 <==> editing.Some? && putSucceeds && makeDirector && !IsDirectorRole(editing.value.role)
    ensures |r| == 2 ==> r[1] == PromoteToDirector(editing.value.id)
    ensures |r| <= 2
  {
    if editing.None? then []
    else
      var u := editing.value;
      if putSucceeds && makeDirector && !IsDirectorRole(u.role) then [PutUser(u.id, form), PromoteToDirector(u.id)]
      else [PutUser(u.id, form)]
  }

  /** Saving the editor without touching the flag never promotes anybody. */
  lemma UntouchedFlagNeverPromotes(u: UserDto, form: EditUserForm, putSucceeds: bool)
    ensures forall i :: 0 <= i < |UpdateUserRequests(Some(u), form, OpenEditUser(u).1, putSucceeds)| ==>
              !UpdateUserRequests(Some(u), form, OpenEditUser(u).1, putSucceeds)[i].PromoteToDirector?
  {
  }
}
