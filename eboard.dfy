/** The e-board page (`Eboard`): the member list, the member dialog's
    visibility, the member being edited and the dialog's loading flag, with
    the stored sign-in token gating saves and deletes. Alerts are recorded
    in order. */
module Eboard {
  import opened Base
  import opened Lists
  import opened MemberModal

  /** The request a save sends: PUT of the dialog's object to the edited
      member's id, or POST of it. */
  datatype MemberRequest = Update(id: Id, body: map<string, string>) | Create(body: map<string, string>)

  const NoTokenAlert := "No authentication token found. Please log in again."
  const AuthFailedAlert := "Authentication failed. Please log in again."
  const SaveFailed := "Failed to save member"
  const DeleteFailedAlert := "Failed to delete member. Please try again."

  /** The attributes of the mirrored token cookie: site-wide, strict
      same-site, and a lifetime of one day (24 * 60 * 60 = 86400 seconds). */
  const CookieAttributes := "; path=/; max-age=86400; SameSite=Strict"

  /** The cookie `setTokenCookie` writes for a token. */
  function TokenCookie(token: string): (c: string)
    ensures |c| == 6 + |token| + |CookieAttributes|
    ensures c[..6] == "token=" && c[6..6 + |token|] == token
    ensures c[6 + |token|..] == CookieAttributes
  {
    "token=" + token + CookieAttributes
  }

  /** The alert of a failed save that was not a 401:
      `error.response?.data?.error || error.message || "Failed to save member"`. */
  function SaveErrorAlert(f: Failure): (m: string)
    ensures m != ""
    ensures Truthy(f.serverError) ==> m == f.serverError.value
    ensures !Truthy(f.serverError) && f.message != "" ==> m == f.message
    ensures !Truthy(f.serverError) && f.message == "" ==> m == SaveFailed
  {
    if Truthy(f.serverError) then f.serverError.value else if f.message != "" then f.message else SaveFailed
  }

  class EboardPage {
    var members: seq<MemberRecord>
    var showModal: bool
    var editing: Option<MemberRecord>
    var modalLoading: bool
    /** `localStorage.getItem("token")`. */
    var storedToken: Option<string>
    /** The `token` cookie, as last written by `setTokenCookie`. */
    var cookie: Option<string>
    var alerts: seq<string>

    constructor (storedToken: Option<string>)
      ensures this.storedToken == storedToken
      ensures members == [] && !showModal && editing.None? && !modalLoading && cookie.None? && alerts == []
    {
      this.storedToken := storedToken;
      members := [];
      showModal := false;
      editing := None;
      modalLoading := false;
      cookie := None;
      alerts := [];
    }

    /** `handleModalSubmit` up to its request. The loading flag is raised;
        without a token an alert is shown, nothing is sent and the flag is
        lowered again at once; with one, an edit sends a PUT to the edited
        member's id and a create a POST, and the flag stays up. The list, the
        dialog and the member being edited are untouched. */
    method BeginModalSubmit(data: map<string, string>) returns (req: Option<MemberRequest>)
      modifies this
      ensures modalLoading <==> req.Some?
      ensures !Truthy(old(storedToken)) ==> req.None? && alerts == old(alerts) + [NoTokenAlert]
      ensures Truthy(old(storedToken)) ==>
                && req == Some(if old(editing).Some? then Update(old(editing).value.id, data) else Create(data))
                && alerts == old(alerts)
      ensures members == old(members) && showModal == old(showModal) && editing == old(editing)
      ensures storedToken == old(storedToken) && cookie == old(cookie)
    {
      modalLoading := true;
      if !Truthy(storedToken) {
        alerts := alerts + [NoTokenAlert];
        modalLoading := false;
        return None;
      }
      if editing.Some? {
        req := Some(Update(editing.value.id, data));
      } else {
        req := Some(Create(data));
      }
    }

    /** `handleModalSubmit` after its request. A saved edit replaces the
        members with the edited id by the response and a saved create puts
        it first; either closes the dialog and forgets the edited member. A
        401 alerts that sign-in failed, any other failure alerts the
        server's message; on failure nothing else changes. The loading flag
        is lowered on every path. */
    method FinishModalSubmit(req: MemberRequest, reply: Reply<MemberRecord>)
      modifies this
      ensures !modalLoading
      ensures reply.Ok? ==>
                && members == (match req
                               case Update(id, _) => Replaced(old(members), MemberId, id, reply.value)
                               case Create(_) => [reply.value] + old(members))
                && !showModal && editing.None? && alerts == old(alerts)
      ensures reply.Err? ==>
                && members == old(members) && showModal == old(showModal) && editing == old(editing)
                && alerts == old(alerts) + [if reply.failure.status == Some(401) then AuthFailedAlert
                                            else SaveErrorAlert(reply.failure)]
      ensures storedToken == old(storedToken) && cookie == old(cookie)
    {
      match reply {
        case Ok(saved) =>
          if req.Update? {
            members := Replaced(members, MemberId, req.id, saved);
          } else {
            members := [saved] + members;
          }
          showModal := false;
          editing := None;
        case Err(failure) =>
          if failure.status == Some(401) {
            alerts := alerts + [AuthFailedAlert];
          } else {
            alerts := alerts + [SaveErrorAlert(failure)];
          }
      }
      modalLoading := false;
    }

    /** `handleEdit`: the member becomes the edited one and the dialog opens. */
    method HandleEdit(m: MemberRecord)
      modifies this
      ensures editing == Some(m) && showModal
      ensures members == old(members) && modalLoading == old(modalLoading) && alerts == old(alerts)
      ensures storedToken == old(storedToken) && cookie == old(cookie)
    {
      editing := Some(m);
      showModal := true;
    }

    /** `handleDelete`, given the server's reply. Without a token nothing is
        sent; otherwise the token is mirrored into its cookie and the request
        sent. Only a successful request removes the members with the id;
        every failure, the missing token included, ends in the same alert
        and leaves the list as it was. */
    method HandleDelete(id: Id, reply: Reply<()>) returns (sent: bool)
      modifies this
      ensures sent <==> Truthy(old(storedToken))
      ensures members == if sent && reply.Ok? then Removed(old(members), MemberId, id) else old(members)
      ensures alerts == if sent && reply.Ok? then old(alerts) else old(alerts) + [DeleteFailedAlert]
      ensures cookie == if sent then Some(TokenCookie(old(storedToken).value)) else old(cookie)
      ensures showModal == old(showModal) && editing == old(editing) && modalLoading == old(modalLoading)
      ensures storedToken == old(storedToken)
    {
      if !Truthy(storedToken) {
        alerts := alerts + [DeleteFailedAlert];
        return false;
      }
      SetTokenCookie();
      sent := true;
      if reply.Ok? {
        members := Removed(members, MemberId, id);
      } else {
        alerts := alerts + [DeleteFailedAlert];
      }
    }

    /** `setTokenCookie`: a stored token is mirrored into the cookie. */
    method SetTokenCookie()
      modifies this
      ensures cookie == if Truthy(old(storedToken)) then Some(TokenCookie(old(storedToken).value)) else old(cookie)
      ensures members == old(members) && showModal == old(showModal) && editing == old(editing)
      ensures modalLoading == old(modalLoading) && alerts == old(alerts) && storedToken == old(storedToken)
    {
      if Truthy(storedToken) {
        cookie := Some(TokenCookie(storedToken.value));
      }
    }

    /** `openCreateModal`: the dialog opens with no member being edited. */
    method OpenCreateModal()
      modifies this
      ensures editing.None? && showModal
      ensures members == old(members) && modalLoading == old(modalLoading) && alerts == old(alerts)
      ensures storedToken == old(storedToken) && cookie == old(cookie)
    {
      editing := None;
      showModal := true;
    }

    /** `closeModal`: the dialog is hidden and the edited member forgotten. */
    method CloseModal()
      modifies this
      ensures !showModal && editing.None?
      ensures members == old(members) && modalLoading == old(modalLoading) && alerts == old(alerts)
      ensures storedToken == old(storedToken) && cookie == old(cookie)
    {
      showModal := false;
      editing := None;
    }
  }

  /** Admin rights belong to exactly one user value, the one named "Admin":
      case matters and a missing user has none. */
  lemma AdminIsExact(u: Option<User>)
    ensures IsAdmin(u) <==> u == Some(User("Admin"))
    ensures !IsAdmin(Some(User("admin"))) && !IsAdmin(None)
  {
    if u.Some? && u.value.username == "Admin" {
      assert u.value == User("Admin");
    }
  }

  /** A saved edit keeps the list's length; the members with the edited id
      become the response and no other member changes. */
  lemma SavedEditReplacesOnlyThatId(s: seq<MemberRecord>, id: Id, saved: MemberRecord)
    requires saved.id == id
    ensures |Replaced(s, MemberId, id, saved)| == |s|
    ensures forall i :: 0 <= i < |s| && s[i].id != id ==> Replaced(s, MemberId, id, saved)[i] == s[i]
    ensures forall m :: m in Replaced(s, MemberId, id, saved) ==> m.id != id || m == saved
  {
    var t := Replaced(s, MemberId, id, saved);
    forall m | m in t
      ensures m.id != id || m == saved
    {
      var i :| 0 <= i < |t| && t[i] == m;
    }
  }
}
