/** Nicks as keys of the user table, zero bytes included. */
module ChatKeys {
  import opened OrderedTable
  import opened SdsFormat
  import opened ChatState

  /**
    add_user_nick on the keys of the user table: the nick is looked up as a C string and
    filed in its full length.
   */
  function AddKey(keys: seq<Nick>, nick: Nick): seq<Nick> {
    if nick == "" || CString(nick) in keys then keys else keys + [nick]
  }

  /** update_user_nick on the keys. */
  function RenameKey(keys: seq<Nick>, was: Nick, now: Nick): seq<Nick> {
    if now == "" || CString(now) in keys then keys else Dropped(keys, was) + [now]
  }

  lemma {:induction false} CStringOfText(s: string)
    ensures '\0' !in s ==> CString(s) == s
  {
    if s == "" {
    } else {
      CStringOfText(s[1..]);
    }
  }

  /** Without a zero byte, a nick is looked up and filed the same. */
  lemma KeysOfText(keys: seq<Nick>, was: Nick, now: Nick)
    requires '\0' !in now
    ensures AddKey(keys, now) == if now == "" || now in keys then keys else keys + [now]
    ensures RenameKey(keys, was, now) == if now == "" || now in keys then keys else Dropped(keys, was) + [now]
  {
    CStringOfText(now);
  }

  /** Two users get one first nick exactly when it is in use and what is looked up, its C string, is not. */
  lemma AddKeyExact(keys: seq<Nick>, nick: Nick)
    requires NoRepeats(keys)
    ensures !NoRepeats(AddKey(keys, nick)) <==> nick in keys && CString(nick) !in keys
  {
    AppendRepeats(keys, nick);
  }

  lemma AppendRepeats<K(!new)>(keys: seq<K>, k: K)
    requires NoRepeats(keys)
    ensures NoRepeats(keys + [k]) <==> k !in keys
  {
    if k in keys {
      var i :| 0 <= i < |keys| && keys[i] == k;
      assert (keys + [k])[i] == (keys + [k])[|keys|];
    }
  }

  /** So with a change of nick, unless the nick in use is the one it replaces. */
  lemma RenameKeyExact(keys: seq<Nick>, was: Nick, now: Nick)
    requires NoRepeats(keys)
    ensures !NoRepeats(RenameKey(keys, was, now)) <==> now in keys && now != was && CString(now) !in keys
  {
    DroppedFacts(keys, was);
    AppendRepeats(Dropped(keys, was), now);
  }

  /** Two clients take the same nick with a zero byte, and both succeed. */
  lemma SameNickTwice()
    ensures AddKey(AddKey([], "a\0b"), "a\0b") == ["a\0b", "a\0b"]
  {
    assert CString("a\0b") == "a" by {
      assert "a\0b"[1..][0] == '\0';
    }
  }
}
