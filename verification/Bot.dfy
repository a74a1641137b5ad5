/** The bot's stateful operations over its two files: recording an approved
    member, handling a join request, and the periodic check for members who
    left. The gateway's answers are parameters. */
module Bot {
  import opened JsonStore
  import opened MemberKey
  import opened Cadence

  /** The member file after save_user(id): bootstrapped if missing, then the
      ID appended unless already listed; content that fails to decode counts
      as the empty list. */
  function SavedUserFile(f: File<seq<int>>, id: int): (r: File<seq<int>>)
    ensures id in ReadUserList(r)
    ensures !r.Absent?
  {
    var existing := InitFile(f, []);
    var users := ReadUserList(existing);
    if id in users then existing else SaveJsonFile(users + [id])
  }

  /** save_user is an order-preserving append: a new ID goes to the end of
      the list, and a listed one causes no write at all. */
  lemma SaveUserAppends(f: File<seq<int>>, id: int)
    ensures var before := ReadUserList(InitFile(f, []));
      && (id in before ==> SavedUserFile(f, id) == InitFile(f, []))
      && (id !in before ==> ReadUserList(SavedUserFile(f, id)) == before + [id])
      && before <= ReadUserList(SavedUserFile(f, id))
  {
  }

  /** save_user never lists a member twice: a member file without repeated
      IDs stays without them. */
  lemma SaveUserKeepsDistinct(f: File<seq<int>>, id: int)
    requires Distinct(ReadUserList(InitFile(f, [])))
    ensures Distinct(ReadUserList(SavedUserFile(f, id)))
  {
    var before := ReadUserList(InitFile(f, []));
    if id !in before {
      assert ReadUserList(SavedUserFile(f, id)) == before + [id];
    }
  }

  /** Saving the same member twice is saving once. */
  lemma SaveUserIdempotent(f: File<seq<int>>, id: int)
    ensures SavedUserFile(SavedUserFile(f, id), id) == SavedUserFile(f, id)
  {
  }

  /** The departure file after a rejoin: the member's record is deleted and
      the file rewritten if there was one; otherwise the file is left as it
      is, even when it cannot be decoded. */
  function ForgetDeparture(f: File<LeftMap>, key: string): (r: File<LeftMap>)
    ensures LoadJsonFile(r) == LoadJsonFile(f) - {key}
    ensures key !in LoadJsonFile(f) ==> r == f
  {
    var leftUsers := LoadJsonFile(f);
    if key in leftUsers then SaveJsonFile(leftUsers - {key}) else f
  }

  /** The departure file after one reconciliation pass at time now. */
  function PassedLeftFile(userFile: File<seq<int>>, leftFile: File<LeftMap>, now: int,
                          status: int -> StatusReply, delivered: int -> bool): (r: File<LeftMap>)
    ensures r.Valid?
    ensures CountsCapped(LoadJsonFile(leftFile)) ==> CountsCapped(LoadJsonFile(r))
  {
    var userIds := ReadUserList(InitFile(userFile, []));
    var leftUsers := LoadJsonFile(InitFile(leftFile, map[]));
    PassKeepsCountsCapped(userIds, leftUsers, now, status, delivered);
    SaveJsonFile(Reconcile(userIds, leftUsers, now, status, delivered))
  }

  /** The body of check_who_left's loop for one member: the departure map
      after the member was checked, given the status query's outcome and
      whether a due reminder would be delivered. Any failure is confined to
      this member: it leaves the map as it was. */
  method CheckMember(leftUsers: LeftMap, userId: int, reply: StatusReply, delivered: bool, now: int)
    returns (result: LeftMap)
    ensures result == MemberStep(leftUsers, userId, reply, delivered, now)
  {
    result := leftUsers;
    if reply.QueryFailed? {
      // the query raised: logged, and the member is skipped
      return;
    }
    if Departed(reply.status) {
      var userKey := Key(userId);
      var userData := if userKey in result then result[userKey] else Departure(0, None, None);
      if userData.count >= Cap {
        return;
      }
      var sendNow := false;
      if userData.firstSentAt == None {
        if userData.lastSentAt == None {
          if userKey !in result {
            userData := userData.(firstSentAt := Some(now));
          }
          if userData.firstSentAt == None {
            // subtracting None raises: logged, and the member is skipped
            return;
          }
          if now - userData.firstSentAt.value >= FirstDelay {
            sendNow := true;
          }
        }
      } else if userData.lastSentAt == None {
        if now - userData.firstSentAt.value >= FirstDelay {
          sendNow := true;
        }
      } else {
        if now - userData.lastSentAt.value >= RepeatDelay {
          sendNow := true;
        }
      }
      if sendNow && delivered {
        // the first-seen time is kept: the record always has that field
        userData := userData.(count := userData.count + 1, lastSentAt := Some(now));
      }
      result := result[userKey := userData];
    } else {
      if Key(userId) in result {
        result := result - {Key(userId)};
      }
    }
  }

  /** The bot's persistent state: the known-members file and the departure
      file. */
  class Store {
    var userFile: File<seq<int>>
    var leftFile: File<LeftMap>

    constructor (userFile: File<seq<int>>, leftFile: File<LeftMap>)
      ensures this.userFile == userFile && this.leftFile == leftFile
    {
      this.userFile := userFile;
      this.leftFile := leftFile;
    }

    /** save_user: add an approved member to the known-members list. */
    method SaveUser(userId: int)
      modifies this
      ensures userFile == SavedUserFile(old(userFile), userId)
      ensures leftFile == old(leftFile)
    {
      userFile := InitFile(userFile, []);
      var users := ReadUserList(userFile);
      if userId !in users {
        users := users + [userId];
        userFile := SaveJsonFile(users);
      }
    }

    /** The state changes of handle_join_request. When approval fails nothing
        changes; otherwise the member is recorded as known and any departure
        record of theirs is deleted, and no other record changes. The welcome
        message that follows cannot change the state. */
    method HandleJoinRequest(userId: int, approved: bool)
      modifies this
      ensures !approved ==> userFile == old(userFile) && leftFile == old(leftFile)
      ensures approved ==> userFile == SavedUserFile(old(userFile), userId)
      ensures approved ==> leftFile == ForgetDeparture(old(leftFile), Key(userId))
      ensures approved ==> userId in ReadUserList(userFile)
      ensures approved ==> LoadJsonFile(leftFile) == LoadJsonFile(old(leftFile)) - {Key(userId)}
      ensures CountsCapped(LoadJsonFile(old(leftFile))) ==> CountsCapped(LoadJsonFile(leftFile))
    {
      if !approved {
        return;
      }
      SaveUser(userId);
      var leftUsers := LoadJsonFile(leftFile);
      if Key(userId) in leftUsers {
        leftUsers := leftUsers - {Key(userId)};
        leftFile := SaveJsonFile(leftUsers);
      }
    }

    /** check_who_left: one reconciliation pass at time now. Every known
        member is checked in list order; the departure map is written back
        once, after the last member. */
    method CheckWhoLeft(now: int, status: int -> StatusReply, delivered: int -> bool)
      modifies this
      ensures userFile == InitFile(old(userFile), [])
      ensures leftFile == PassedLeftFile(old(userFile), old(leftFile), now, status, delivered)
    {
      userFile := InitFile(userFile, []);
      leftFile := InitFile(leftFile, map[]);
      var userIds := ReadUserList(userFile);
      var leftUsers := LoadJsonFile(leftFile);
      ghost var start := leftUsers;
      for i := 0 to |userIds|
        invariant leftUsers == Reconcile(userIds[..i], start, now, status, delivered)
        invariant userFile == InitFile(old(userFile), [])
      {
        ReconcileExtend(userIds, i, start, now, status, delivered);
        var userId := userIds[i];
        leftUsers := CheckMember(leftUsers, userId, status(userId), delivered(userId), now);
      }
      assert userIds[..|userIds|] == userIds;
      leftFile := SaveJsonFile(leftUsers);
    }
  }
}
