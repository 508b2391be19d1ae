/**
 * The lobby page: the invite dialog's user-code field and send step, the
 * join dialog's code field and join step, the player slots of the current
 * lobby, and when the start action appears. The lobby itself (create, join,
 * leave, invitations) lives in the backend and is reduced to the answers
 * the page receives.
 */
module Lobby {
  import opened Wrappers
  import opened Text

  /** The ASCII digits of `s`, in order: `s.replace(/\D/g, '')`. */
  function DigitsOf(s: string): (r: string)
    ensures |r| <= |s| && AllDigits(r)
  {
    if |s| == 0 then []
    else if IsDigit(s[0]) then [s[0]] + DigitsOf(s[1..])
    else DigitsOf(s[1..])
  }

  /** The digits kept are exactly the digits typed. */
  lemma {:induction false} DigitsOfMembers(s: string)
    ensures forall c :: c in DigitsOf(s) <==> c in s && IsDigit(c)
  {
    if |s| > 0 {
      DigitsOfMembers(s[1..]);
      assert s == [s[0]] + s[1..];
    }
  }

  lemma {:induction false} DigitsOfAppend(a: string, b: string)
    ensures DigitsOf(a + b) == DigitsOf(a) + DigitsOf(b)
  {
    if |a| > 0 {
      assert (a + b)[0] == a[0];
      assert (a + b)[1..] == a[1..] + b;
      DigitsOfAppend(a[1..], b);
    } else {
      assert a + b == b;
    }
  }

  lemma {:induction false} DigitsOfDigits(s: string)
    requires AllDigits(s)
    ensures DigitsOf(s) == s
  {
    if |s| > 0 {
      DigitsOfDigits(s[1..]);
      assert [s[0]] + s[1..] == s;
    }
  }

  /** The invite dialog's field: what is kept of the typed text — its
      digits, at most six of them, in order. */
  function SanitizeUserCode(input: string): (r: string)
    ensures |r| <= 6 && AllDigits(r)
    ensures r <= DigitsOf(input)
    ensures |r| == if |DigitsOf(input)| < 6 then |DigitsOf(input)| else 6
  {
    var d := DigitsOf(input);
    if |d| <= 6 then d else d[..6]
  }

  /** Cleaning the field again changes nothing. */
  lemma SanitizeIdempotent(input: string)
    ensures SanitizeUserCode(SanitizeUserCode(input)) == SanitizeUserCode(input)
  {
    DigitsOfDigits(SanitizeUserCode(input));
  }

  /** Typing a character that is not a digit leaves the field as it was. */
  lemma NonDigitIgnored(input: string, c: char)
    requires !IsDigit(c)
    ensures SanitizeUserCode(input + [c]) == SanitizeUserCode(input)
  {
    DigitsOfAppend(input, [c]);
    assert DigitsOf([c]) == [];
  }

  /** The Send Invite button: enabled only for a six-character code while
      nothing is loading. */
  function CanSendInvite(userCode: string, loading: bool): bool {
    |userCode| == 6 && !loading
  }

  /** Whatever is typed, the button is enabled exactly when the typed text
      holds at least six digits and nothing is loading. */
  lemma SendEnabledIffSixDigits(input: string, loading: bool)
    ensures CanSendInvite(SanitizeUserCode(input), loading) <==> |DigitsOf(input)| >= 6 && !loading
  {
  }

  /** The lobby the user is in. `max_players` is a count of slots. */
  datatype LobbyInfo = LobbyInfo(id: string, inviteCode: Option<string>, maxPlayers: nat, status: string)

  /** An open dialog's state: whether it is shown and the code in its field. */
  datatype CodeDialog = CodeDialog(open: bool, code: string)

  /** An invitation sent to the backend: the trimmed user code and the lobby id. */
  datatype Invitation = Invitation(userCode: string, lobbyId: string)

  /** What a click on Send Invite (or Join Lobby) leads to: the call made, if
      any, and the dialog afterwards. */
  datatype Step<T> = Step(call: Option<T>, dialog: CodeDialog)

  /** `handleSendInvite`, with the truthiness of the backend's answer as
      `answered`: an invitation goes out only with a non-blank code and a
      current lobby, and the dialog closes and clears only when the answer
      is truthy. */
  function HandleSendInvite(dialog: CodeDialog, lobby: Option<LobbyInfo>, answered: bool): (r: Step<Invitation>)
    ensures r.call.Some? <==> Trim(dialog.code) != "" && lobby.Some?
    ensures r.call.Some? ==> r.call.value == Invitation(Trim(dialog.code), lobby.value.id)
    ensures r.dialog == if r.call.Some? && answered then CodeDialog(false, "") else dialog
  {
    if Trim(dialog.code) != "" && lobby.Some? then
      var call := Invitation(Trim(dialog.code), lobby.value.id);
      if answered then Step(Some(call), CodeDialog(false, "")) else Step(Some(call), dialog)
    else Step(None, dialog)
  }

  /** A code typed into the invite field that enables the button also passes
      the send step's own check, given a current lobby. */
  lemma EnabledInviteIsSent(input: string, lobby: LobbyInfo, answered: bool)
    requires CanSendInvite(SanitizeUserCode(input), false)
    ensures HandleSendInvite(CodeDialog(true, SanitizeUserCode(input)), Some(lobby), answered).call
            == Some(Invitation(SanitizeUserCode(input), lobby.id))
  {
    var code := SanitizeUserCode(input);
    assert !IsSpace(code[0]) && !IsSpace(code[|code| - 1]);
    TrimOfTrimmed(code);
  }

  /** The join dialog's field: the typed text, upper-cased. */
  function JoinCodeInput(typed: string): (r: string)
    ensures |r| == |typed|
    ensures forall k :: 0 <= k < |r| ==> !('a' <= r[k] <= 'z')
  {
    Upper(typed)
  }

  /** Upper-casing the field again changes nothing. */
  lemma JoinCodeInputIdempotent(typed: string)
    ensures JoinCodeInput(JoinCodeInput(typed)) == JoinCodeInput(typed)
  {
  }

  /** The Join Lobby button: enabled only for a non-blank code while nothing
      is loading. */
  function CanJoin(code: string, loading: bool): bool {
    Trim(code) != "" && !loading
  }

  /** `handleJoinLobby`, with the truthiness of the backend's answer as
      `answered`: a join is attempted only with a non-blank code, using the
      trimmed code, and the dialog closes and clears only on a truthy answer. */
  function HandleJoinLobby(dialog: CodeDialog, answered: bool): (r: Step<string>)
    ensures r.call.Some? <==> Trim(dialog.code) != ""
    ensures r.call.Some? ==> r.call.value == Trim(dialog.code)
    ensures r.dialog == if r.call.Some? && answered then CodeDialog(false, "") else dialog
  {
    if Trim(dialog.code) != "" then
      var code := Trim(dialog.code);
      if answered then Step(Some(code), CodeDialog(false, "")) else Step(Some(code), dialog)
    else Step(None, dialog)
  }

  /** A click on an enabled Join Lobby button always attempts the join, with
      the trimmed code; a click that attempts nothing leaves the dialog as it was. */
  lemma EnabledJoinIsAttempted(dialog: CodeDialog, answered: bool)
    ensures CanJoin(dialog.code, false) ==> HandleJoinLobby(dialog, answered).call == Some(Trim(dialog.code))
    ensures HandleJoinLobby(dialog, answered).call.None? ==> HandleJoinLobby(dialog, answered).dialog == dialog
  {
  }

  /** The code a join is attempted with has no lower-case ASCII letter. */
  lemma JoinCodeUpperCase(typed: string, answered: bool)
    ensures var r := HandleJoinLobby(CodeDialog(true, JoinCodeInput(typed)), answered);
      r.call.Some? ==> forall k :: 0 <= k < |r.call.value| ==> !('a' <= r.call.value[k] <= 'z')
  {
    var code := JoinCodeInput(typed);
    var t := Trim(code);
    forall k | 0 <= k < |t|
      ensures !('a' <= t[k] <= 'z')
    {
      assert t[k] in code;
    }
  }

  /** A member of the lobby, with the profile fields the slot shows. */
  datatype Member = Member(userId: string, fullName: Option<string>, avatarUrl: Option<string>)

  /** One rendered player slot. */
  datatype Slot =
    | WaitingSlot(index: nat)
    | PlayerSlot(index: nat, name: string, initial: string, isYou: bool, host: bool)

  /** The name shown for a member: `full_name || 'Anonymous'`. */
  function DisplayName(m: Member): (r: string)
    ensures r != ""
    ensures m.fullName.Some? && m.fullName.value != "" ==> r == m.fullName.value
    ensures m.fullName.None? || m.fullName.value == "" ==> r == "Anonymous"
  {
    match m.fullName
    case Some(n) => if n != "" then n else "Anonymous"
    case None => "Anonymous"
  }

  /** The avatar fallback: the name's first character, or `U`. */
  function Initial(m: Member): (r: string)
    ensures |r| == 1
    ensures m.fullName.Some? && m.fullName.value != "" ==> r[0] == m.fullName.value[0]
    ensures m.fullName.None? || m.fullName.value == "" ==> r == "U"
  {
    match m.fullName
    case Some(n) => if n != "" then [n[0]] else "U"
    case None => "U"
  }

  /** `renderPlayerSlot`: an empty slot waits for a player; a filled one shows
      the member, marks the signed-in user, and slot 0 carries the host badge. */
  function RenderPlayerSlot(index: nat, member: Option<Member>, user: Option<string>): (r: Slot)
    ensures r.index == index
    ensures r.WaitingSlot? <==> member.None?
    ensures r.PlayerSlot? ==> (r.host <==> index == 0)
    ensures r.PlayerSlot? ==> (r.isYou <==> user == Some(member.value.userId))
    ensures r.PlayerSlot? ==> r.name == DisplayName(member.value) && r.initial == Initial(member.value)
  {
    match member
    case None => WaitingSlot(index)
    case Some(m) => PlayerSlot(index, DisplayName(m), Initial(m), user == Some(m.userId), index == 0)
  }

  /** Every slot of the lobby: `max_players` of them, slot `i` holding the
      `i`-th member when there is one. */
  function Slots(maxPlayers: nat, members: seq<Member>, user: Option<string>): (r: seq<Slot>)
    ensures |r| == maxPlayers
    ensures forall i :: 0 <= i < maxPlayers ==>
      r[i] == RenderPlayerSlot(i, if i < |members| then Some(members[i]) else None, user)
  {
    seq(maxPlayers, i requires 0 <= i < maxPlayers =>
      RenderPlayerSlot(i, if i < |members| then Some(members[i]) else None, user))
  }

  /** Number of filled slots. */
  function Filled(slots: seq<Slot>): nat {
    if |slots| == 0 then 0 else (if slots[0].PlayerSlot? then 1 else 0) + Filled(slots[1..])
  }

  lemma {:induction false} FilledAppend(a: seq<Slot>, b: seq<Slot>)
    ensures Filled(a + b) == Filled(a) + Filled(b)
  {
    if |a| > 0 {
      assert (a + b)[0] == a[0];
      assert (a + b)[1..] == a[1..] + b;
      FilledAppend(a[1..], b);
    } else {
      assert a + b == b;
    }
  }

  /** The slots show as many players as there are members, up to
      `max_players`; members beyond that are not shown. */
  lemma {:induction false} FilledSlots(maxPlayers: nat, members: seq<Member>, user: Option<string>)
    ensures Filled(Slots(maxPlayers, members, user)) == if |members| < maxPlayers then |members| else maxPlayers
  {
    if maxPlayers > 0 {
      var n := maxPlayers - 1;
      FilledSlots(n, members, user);
      var all := Slots(maxPlayers, members, user);
      assert all == Slots(n, members, user) + [all[n]];
      FilledAppend(Slots(n, members, user), [all[n]]);
      assert [all[n]][1..] == [];
    }
  }

  /** Slot 0 is the host's: with at least one member, the first slot is a
      filled host slot, and no other slot is. */
  lemma HostInFirstSlot(maxPlayers: nat, members: seq<Member>, user: Option<string>)
    requires maxPlayers >= 1 && |members| >= 1
    ensures var r := Slots(maxPlayers, members, user);
      && r[0].PlayerSlot? && r[0].host
      && forall i :: 1 <= i < maxPlayers && r[i].PlayerSlot? ==> !r[i].host
  {
  }

  /** The active-lobby panel: its slots, and whether the start action shows. */
  datatype LobbyPanel = LobbyPanel(slots: seq<Slot>, showStart: bool)

  function ActivePanel(lobby: LobbyInfo, members: seq<Member>, user: Option<string>): (r: LobbyPanel)
    ensures |r.slots| == lobby.maxPlayers
    ensures r.showStart <==> lobby.status == "full"
  {
    LobbyPanel(Slots(lobby.maxPlayers, members, user), lobby.status == "full")
  }
}
