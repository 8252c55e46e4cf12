/** The pin cog of `cogs/helper.py`: a permission check over the
    `subjects` table and the replies and platform calls of the three pin
    commands. The check's verdict is what the commands branch on; the
    platform's answer to a pin or unpin call is an input. */
module Helper {

  import opened Wrappers
  import opened Text
  import opened Config

  const NotAHelper := "Only subject helpers can pin messages."
  const NotASubjectChannel := "You may only pin messages in subject channels."
  const NotTheirChannel := "You may only pin messages in your respective subject channel."

  /** The exceptions that escape `check_permissions`: iterating a scalar
      entry (`TypeError`), `int(key)` on a non-number (`ValueError`), and a
      missing key (`KeyError`). The `AttributeError` of `unpin` on no
      message is the `crashed` flag of its outcome. */
  datatype Crash = ScalarEntry | MalformedKey | MissingKey(key: string)

  /** The outcome of `check_permissions`. */
  datatype Verdict = Allowed | Denied(reason: string) | Crashed(crash: Crash)

  /** How the code reads an entry: as written, or as evidently intended. */
  datatype Reading = AsWritten | Intended

  /** Every role id an entry names, whatever its shape. */
  function EntryIds(e: Entry): seq<nat> {
    match e
    case One(id) => [id]
    case Many(ids) => ids
  }

  /** Line 33 as written: `[role for sublist in helper_ids for role in sublist]`
      iterates every entry, so a scalar entry raises. */
  function Flatten(entries: seq<Entry>): (r: Option<seq<nat>>)
    ensures r.Some? <==> forall i :: 0 <= i < |entries| ==> entries[i].Many?
    ensures r.Some? ==> forall x :: x in r.value <==> exists i :: 0 <= i < |entries| && x in EntryIds(entries[i])
  {
    if entries == [] then Some([])
    else match entries[0]
      case One(_) => None
      case Many(ids) =>
        var rest := Flatten(entries[1..]);
        assert forall i :: 1 <= i < |entries| ==> entries[i] == entries[1..][i - 1];
        if rest.None? then None else Some(ids + rest.value)
  }

  /** Line 33 as intended: each entry contributes the ids it names. */
  function FlattenIds(entries: seq<Entry>): (r: seq<nat>)
    ensures forall x :: x in r <==> exists i :: 0 <= i < |entries| && x in EntryIds(entries[i])
  {
    if entries == [] then []
    else
      var rest := FlattenIds(entries[1..]);
      assert forall i :: 1 <= i < |entries| ==> entries[i] == entries[1..][i - 1];
      EntryIds(entries[0]) + rest
  }

  /** Line 38: `[int(channel) for channel in subject_channels]`. */
  function ParseKeys(keys: seq<string>): (r: Option<seq<nat>>)
    ensures r.Some? <==> forall i :: 0 <= i < |keys| ==> ParseDecimal(keys[i]).Some?
    ensures r.Some? ==> |r.value| == |keys| && forall i :: 0 <= i < |keys| ==> r.value[i] == ParseDecimal(keys[i]).value
  {
    if keys == [] then Some([])
    else
      var rest := ParseKeys(keys[1..]);
      assert forall i :: 1 <= i < |keys| ==> keys[i] == keys[1..][i - 1];
      match ParseDecimal(keys[0])
      case None => None
      case Some(n) => if rest.None? then None else Some([n] + rest.value)
  }

  /** The flattened helper ids under each reading; `None` is the `TypeError`. */
  function HelperIds(reading: Reading, entries: seq<Entry>): Option<seq<nat>> {
    match reading
    case AsWritten => Flatten(entries)
    case Intended => Some(FlattenIds(entries))
  }

  /** Lines 43-44: `valid_roles = [entry]` and the test whether one of
      them is among the user's role ids. As written the entry is compared
      as a whole, so a list entry never passes; as intended, any id the
      entry names counts. */
  predicate HoldsEntry(reading: Reading, entry: Entry, userRoleIds: seq<nat>) {
    match reading
    case AsWritten => entry.One? && entry.id in userRoleIds
    case Intended => exists x :: x in EntryIds(entry) && x in userRoleIds
  }

  /** The first test: the user holds some configured helper role. */
  predicate HoldsHelperRole(userRoleIds: seq<nat>, helperIds: seq<nat>) {
    exists x :: x in userRoleIds && x in helperIds
  }

  /** Lines 30-48: the three tests, in order; the first that fails picks
      the message, and each test runs only when the ones before it pass. */
  function Check(reading: Reading, userRoleIds: seq<nat>, channelId: nat, subjects: Subjects): (v: Verdict)
    ensures v == Denied(NotAHelper) <==>
              HelperIds(reading, Entries(subjects)).Some? && !HoldsHelperRole(userRoleIds, HelperIds(reading, Entries(subjects)).value)
    ensures v == Denied(NotASubjectChannel) <==>
              && HelperIds(reading, Entries(subjects)).Some? && HoldsHelperRole(userRoleIds, HelperIds(reading, Entries(subjects)).value)
              && ParseKeys(Keys(subjects)).Some? && channelId !in ParseKeys(Keys(subjects)).value
    ensures v == Denied(NotTheirChannel) <==>
              && HelperIds(reading, Entries(subjects)).Some? && HoldsHelperRole(userRoleIds, HelperIds(reading, Entries(subjects)).value)
              && ParseKeys(Keys(subjects)).Some? && channelId in ParseKeys(Keys(subjects)).value
              && EntryOf(subjects, Str(channelId)).Some? && !HoldsEntry(reading, EntryOf(subjects, Str(channelId)).value, userRoleIds)
    ensures v == Allowed <==>
              && HelperIds(reading, Entries(subjects)).Some? && HoldsHelperRole(userRoleIds, HelperIds(reading, Entries(subjects)).value)
              && ParseKeys(Keys(subjects)).Some? && channelId in ParseKeys(Keys(subjects)).value
              && EntryOf(subjects, Str(channelId)).Some? && HoldsEntry(reading, EntryOf(subjects, Str(channelId)).value, userRoleIds)
    ensures v.Denied? ==> v.reason in {NotAHelper, NotASubjectChannel, NotTheirChannel}
  {
    match HelperIds(reading, Entries(subjects))
    case None => Crashed(ScalarEntry)
    case Some(helperIds) =>
      if !HoldsHelperRole(userRoleIds, helperIds) then Denied(NotAHelper)
      else match ParseKeys(Keys(subjects))
        case None => Crashed(MalformedKey)
        case Some(channels) =>
          if channelId !in channels then Denied(NotASubjectChannel)
          else match EntryOf(subjects, Str(channelId))
            case None => Crashed(MissingKey(Str(channelId)))
            case Some(entry) =>
              if !HoldsEntry(reading, entry, userRoleIds) then Denied(NotTheirChannel) else Allowed
  }

  /** `check_permissions` as written. */
  function CheckPermissions(userRoleIds: seq<nat>, channelId: nat, subjects: Subjects): Verdict {
    Check(AsWritten, userRoleIds, channelId, subjects)
  }

  /** `check_permissions` with the entry shape read consistently. */
  function CheckPermissionsIntended(userRoleIds: seq<nat>, channelId: nat, subjects: Subjects): Verdict {
    Check(Intended, userRoleIds, channelId, subjects)
  }

  /** As written, the check lets nobody through: a scalar entry anywhere
      makes line 33 raise, and with list entries only, the entry of the
      channel is a list that never equals a role id. */
  lemma CheckPermissionsNeverAllows(userRoleIds: seq<nat>, channelId: nat, subjects: Subjects)
    ensures CheckPermissions(userRoleIds, channelId, subjects) != Allowed
  {
  }

  /** As intended, when every key is a number, a user is let through
      exactly when the channel is configured and the user holds one of the
      roles configured for it. */
  lemma IntendedAllowsOwnChannel(userRoleIds: seq<nat>, channelId: nat, subjects: Subjects)
    requires forall i :: 0 <= i < |subjects| ==> ParseDecimal(subjects[i].0).Some?
    ensures CheckPermissionsIntended(userRoleIds, channelId, subjects) == Allowed <==>
              && EntryOf(subjects, Str(channelId)).Some?
              && exists x :: x in EntryIds(EntryOf(subjects, Str(channelId)).value) && x in userRoleIds
  {
    var e := EntryOf(subjects, Str(channelId));
    if e.Some? && exists x :: x in EntryIds(e.value) && x in userRoleIds {
      var x :| x in EntryIds(e.value) && x in userRoleIds;
      var i :| 0 <= i < |subjects| && subjects[i] == (Str(channelId), e.value);
      assert Entries(subjects)[i] == e.value;
      assert x in FlattenIds(Entries(subjects));
      assert HoldsHelperRole(userRoleIds, FlattenIds(Entries(subjects)));
      ParseStr(channelId);
      assert Keys(subjects)[i] == Str(channelId);
      assert ParseKeys(Keys(subjects)).value[i] == channelId;
    }
  }

  /** The list-valued configuration the code's comment asks for: a helper
      in their own channel is refused as written and let through as intended. */
  lemma ListConfigExample()
    ensures CheckPermissions([5], 1, [("1", Many([5]))]) == Denied(NotTheirChannel)
    ensures CheckPermissionsIntended([5], 1, [("1", Many([5]))]) == Allowed
  {
    var subjects := [("1", Many([5]))];
    assert Str(1) == "1";
    assert Entries(subjects) == [Many([5])];
    assert Keys(subjects) == ["1"];
    assert FlattenIds(Entries(subjects)) == [5];
    assert 5 in [5];
    assert HoldsHelperRole([5], [5]);
  }

  /** Where a reply goes: text commands answer in the channel, the
      context menu answers the interaction. */
  datatype Caller = TextCommand | Interaction

  datatype Reply = Reply(text: string, ephemeral: bool)

  /** Lines 23-27: `send_error`; an interaction's reply is ephemeral. */
  function ErrorReply(caller: Caller, message: string): Reply {
    Reply(message, caller == Interaction)
  }

  /** What the platform answered to a pin or unpin call. */
  datatype CallResult = Done | Forbidden | NotFound | HttpError

  /** The platform call a command makes, if any. */
  datatype PlatformCall = NoCall | PinCall | UnpinCall

  /** A command's effects: whether the permission check ran, the platform
      call made, the replies sent in order, and whether it raised. */
  datatype CommandRun = CommandRun(checked: bool, call: PlatformCall, replies: seq<Reply>, crashed: bool)

  const Pinned := "The message was successfully pinned."
  const Unpinned := "The message was successfully unpinned."
  const InvalidId := "Invalid message ID provided."
  const MaxPins := "You have reached the maximum number of pins for this channel."
  const CouldNotUnpin := "The message could not be unpinned."

  /** Lines 52-81: the reply of the context menu after it called the platform. */
  function ToggleReply(pinned: bool, result: CallResult): Reply {
    match result
    case Done => Reply(if pinned then Unpinned else Pinned, false)
    case Forbidden => Reply("The bot does not have permission to pin/unpin messages.", true)
    case NotFound => Reply(InvalidId, true)
    case HttpError => Reply(if pinned then CouldNotUnpin else MaxPins, true)
  }

  /** Lines 50-81, the "Toggle Pin" context menu: once allowed, it unpins
      exactly when the message is pinned and pins otherwise; any other
      platform failure is explained by the pinned flag. Exactly one reply
      is sent unless the check raised. */
  function TogglePin(v: Verdict, pinned: bool, result: CallResult): (run: CommandRun)
    ensures run.checked
    ensures run.call != NoCall <==> v == Allowed
    ensures v == Allowed ==> (run.call == UnpinCall <==> pinned)
    ensures v == Allowed && result == HttpError ==> run.replies == [Reply(if pinned then CouldNotUnpin else MaxPins, true)]
    ensures v.Denied? ==> run.replies == [Reply(v.reason, true)]
    ensures |run.replies| == (if v.Crashed? then 0 else 1) && run.crashed == v.Crashed?
  {
    match v
    case Crashed(_) => CommandRun(true, NoCall, [], true)
    case Denied(m) => CommandRun(true, NoCall, [ErrorReply(Interaction, m)], false)
    case Allowed => CommandRun(true, if pinned then UnpinCall else PinCall, [ToggleReply(pinned, result)], false)
  }

  /** Lines 93-105: the reply of `pin` after it called the platform. */
  function PinReply(result: CallResult): Reply {
    match result
    case Done => Reply(Pinned, false)
    case Forbidden => Reply("The bot does not have the permission to pin/unpin messages.", false)
    case NotFound => Reply(InvalidId, false)
    case HttpError => Reply(MaxPins, false)
  }

  /** Lines 117-127: the reply of `unpin` after it called the platform. */
  function UnpinReply(result: CallResult): Reply {
    match result
    case Done => Reply(Unpinned, false)
    case Forbidden => Reply("The bot does not have the permission to unpin messages.", false)
    case NotFound => Reply(InvalidId, false)
    case HttpError => Reply(CouldNotUnpin, false)
  }

  /** Lines 84-105, the `pin` command; `message` is the message's pinned
      flag, or `None` when no message was given. Without a message it
      replies and stops before the check; it calls the platform only for
      an unpinned message once allowed, and never unpins. */
  function Pin(message: Option<bool>, v: Verdict, result: CallResult): (run: CommandRun)
    ensures message.None? ==> run == CommandRun(false, NoCall, [Reply("No message has been provided to pin.", false)], false)
    ensures run.call != NoCall <==> message == Some(false) && v == Allowed
    ensures run.call != UnpinCall
    ensures message == Some(true) && v == Allowed ==> run.replies == [Reply("The message is already pinned.", false)]
  {
    match message
    case None => CommandRun(false, NoCall, [Reply("No message has been provided to pin.", false)], false)
    case Some(pinned) =>
      match v
      case Crashed(_) => CommandRun(true, NoCall, [], true)
      case Denied(m) => CommandRun(true, NoCall, [ErrorReply(TextCommand, m)], false)
      case Allowed =>
        if pinned then CommandRun(true, NoCall, [Reply("The message is already pinned.", false)], false)
        else CommandRun(true, PinCall, [PinReply(result)], false)
  }

  /** Lines 108-127, the `unpin` command. Without a message it replies
      but does not return: the check still runs, and once allowed, reading
      the missing message's flag raises. It calls the platform only for a
      pinned message once allowed, and never pins. */
  function Unpin(message: Option<bool>, v: Verdict, result: CallResult): (run: CommandRun)
    ensures message.None? ==> && run.checked && run.call == NoCall
                              && |run.replies| >= 1 && run.replies[0] == Reply("No message has been provided to unpin.", false)
                              && (v == Allowed ==> run.crashed)
    ensures run.call != NoCall <==> message == Some(true) && v == Allowed
    ensures run.call != PinCall
    ensures message == Some(false) && v == Allowed ==> run.replies == [Reply("The message is already unpinned.", false)]
  {
    var noMessage := if message.None? then [Reply("No message has been provided to unpin.", false)] else [];
    match v
    case Crashed(_) => CommandRun(true, NoCall, noMessage, true)
    case Denied(m) => CommandRun(true, NoCall, noMessage + [ErrorReply(TextCommand, m)], false)
    case Allowed =>
      match message
      case None => CommandRun(true, NoCall, noMessage, true)
      case Some(pinned) =>
        if !pinned then CommandRun(true, NoCall, [Reply("The message is already unpinned.", false)], false)
        else CommandRun(true, UnpinCall, [UnpinReply(result)], false)
  }

  /** `unpin` with the `return` that `pin` has on line 89: without a
      message it replies and stops before the check. */
  function UnpinIntended(message: Option<bool>, v: Verdict, result: CallResult): (run: CommandRun)
    ensures message.None? ==> run == CommandRun(false, NoCall, [Reply("No message has been provided to unpin.", false)], false)
    ensures run.call != NoCall <==> message == Some(true) && v == Allowed
    ensures run.call != PinCall
  {
    match message
    case None => CommandRun(false, NoCall, [Reply("No message has been provided to unpin.", false)], false)
    case Some(_) => Unpin(message, v, result)
  }

  /** The two readings of `unpin` differ only without a message: there
      the code as written runs the check, so a refused caller gets two
      replies and an allowed one makes it raise. */
  lemma UnpinReadingsAgree(message: Option<bool>, v: Verdict, result: CallResult)
    ensures message.Some? ==> UnpinIntended(message, v, result) == Unpin(message, v, result)
    ensures message.None? && v == Allowed ==>
              Unpin(message, v, result).crashed && !UnpinIntended(message, v, result).crashed
    ensures message.None? && v.Denied? ==>
              |Unpin(message, v, result).replies| == 2 && |UnpinIntended(message, v, result).replies| == 1
  {
  }

  /** With the check as written, no pin command ever reaches the platform. */
  lemma PinCommandsNeverCallPlatform(userRoleIds: seq<nat>, channelId: nat, subjects: Subjects,
                                     message: Option<bool>, pinned: bool, result: CallResult)
    ensures TogglePin(CheckPermissions(userRoleIds, channelId, subjects), pinned, result).call == NoCall
    ensures Pin(message, CheckPermissions(userRoleIds, channelId, subjects), result).call == NoCall
    ensures Unpin(message, CheckPermissions(userRoleIds, channelId, subjects), result).call == NoCall
  {
    CheckPermissionsNeverAllows(userRoleIds, channelId, subjects);
  }
}
