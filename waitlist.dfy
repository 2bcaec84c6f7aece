/** The waitlist of backend/main.py: a JSON file holding a list of e-mail
    addresses, read by `load_waitlist` (backend/main.py:37-46), written by
    `save_waitlist` (backend/main.py:49-51) and extended by `join_waitlist`
    (backend/main.py:59-67). The file's content is the state. */
module Waitlist {
  import Text

  /** What `WAITLIST_FILE` holds. */
  datatype WaitlistFile =
    | Absent              // the file does not exist
    | Unreadable          // opening it or decoding its JSON raises
    | NotAList            // valid JSON, but not a list
    | Stored(emails: seq<string>)

  /** `load_waitlist()`: the stored list, or `[]` in every other case. */
  function LoadWaitlist(f: WaitlistFile): (emails: seq<string>)
    ensures !f.Stored? ==> emails == []
  {
    if f.Stored? then f.emails else []
  }

  /** `save_waitlist(emails)`: the file now holds the list. */
  function SaveWaitlist(emails: seq<string>): WaitlistFile
  {
    Stored(emails)
  }

  /** Loading what was saved gives the saved list back. */
  lemma LoadSaved(emails: seq<string>)
    ensures LoadWaitlist(SaveWaitlist(emails)) == emails
  {
  }

  datatype JoinStatus = Ok | Exists

  predicate NoDuplicates(s: seq<string>)
  {
    forall i, j :: 0 <= i < j < |s| ==> s[i] != s[j]
  }

  /** The list after `join_waitlist(email)`: unchanged when the lower-cased
      address is present, that address appended otherwise. Either way it
      then holds the address, keeps every earlier entry in place, grows by
      at most one and stays free of duplicates. */
  function Joined(emails: seq<string>, email: string): (r: seq<string>)
    ensures Text.Lower(email) in r
    ensures emails <= r && |r| <= |emails| + 1
    ensures Text.Lower(email) in emails <==> r == emails
    ensures NoDuplicates(emails) ==> NoDuplicates(r)
  {
    var e := Text.Lower(email);
    if e in emails then emails else emails + [e]
  }

  /** Submitting an address twice, in any letter case, adds it once. */
  lemma {:induction false} JoinTwice(emails: seq<string>, email: string, again: string)
    requires Text.Lower(again) == Text.Lower(email)
    ensures Joined(Joined(emails, email), again) == Joined(emails, email)
  {
    assert Text.Lower(again) in Joined(emails, email);
  }

  class WaitlistStore {
    var file: WaitlistFile

    constructor (f: WaitlistFile)
      ensures file == f
    {
      file := f;
    }

    function Emails(): seq<string>
      reads this
    {
      LoadWaitlist(file)
    }

    /** `join_waitlist(entry)`: lower-case the address and load the list.
        A present address gives `Exists` and nothing is written, so the file
        stays as it was. Otherwise the address is appended and the list
        saved, which replaces a missing, unreadable or non-list file. */
    method Join(email: string) returns (status: JoinStatus)
      modifies this
      ensures Emails() == Joined(old(Emails()), email)
      ensures status == Exists <==> Text.Lower(email) in old(Emails())
      ensures status == Exists ==> file == old(file)
      ensures status == Ok ==> file == SaveWaitlist(old(Emails()) + [Text.Lower(email)])
    {
      var e := Text.Lower(email);
      var emails := LoadWaitlist(file);
      if e in emails {
        return Exists;
      }
      emails := emails + [e];
      file := SaveWaitlist(emails);
      return Ok;
    }
  }
}
