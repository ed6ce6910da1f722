/** Conversation history: a trimmed list per session, read back within a token budget. */
module History {
  datatype Message = Message(role: string, content: string)

  /** The number of tokens of a text; the tokenizer is not part of the model. */
  type Tokenizer = string -> nat

  function Tokens(count: Tokenizer, ms: seq<Message>): nat {
    if ms == [] then 0 else Tokens(count, ms[..|ms| - 1]) + count(ms[|ms| - 1].content)
  }

  /** Redis `LTRIM key start -1`: a negative start counts from the end, and 0 keeps everything. */
  function LTrim(s: seq<Message>, start: int): seq<Message> {
    if start < 0 then (if |s| <= -start then s else s[|s| + start..])
    else if start <= |s| then s[start..]
    else []
  }

  /** The last `n` messages. */
  function Last(s: seq<Message>, n: nat): seq<Message> {
    if |s| <= n then s else s[|s| - n..]
  }

  /** What is left of a conversation: its last `maxEntries` messages, all of it at 0, nothing below 0. */
  function Kept(maxEntries: int, log: seq<Message>): seq<Message> {
    if maxEntries > 0 then Last(log, maxEntries) else if maxEntries == 0 then log else []
  }

  /** Trimming what was kept before, with one message more, leaves what is kept of the longer conversation. */
  lemma {:induction false} TrimKeeps(maxEntries: int, log: seq<Message>, m: Message)
    ensures LTrim(Kept(maxEntries, log) + [m], -maxEntries) == Kept(maxEntries, log + [m])
  {
    var longer := log + [m];
    if 0 < maxEntries < |longer| {
      assert Kept(maxEntries, log) + [m] == longer[|log| - |Kept(maxEntries, log)|..];
      assert LTrim(Kept(maxEntries, log) + [m], -maxEntries) == longer[|longer| - maxEntries..];
    }
  }

  /** One session's stored list; Redis expiry and failures are not part of the model. */
  class Session {
    const maxEntries: int
    var entries: seq<Message>
    ghost var log: seq<Message>   // every message ever added

    ghost predicate Valid()
      reads this
    {
      entries == Kept(maxEntries, log)
    }

    constructor (maxEntries: int)
      ensures Valid() && this.maxEntries == maxEntries && log == []
    {
      this.maxEntries, entries, log := maxEntries, [], [];
    }

    method AddMessage(m: Message)
      requires Valid()
      modifies this
      ensures Valid() && log == old(log) + [m]
    {
      TrimKeeps(maxEntries, log, m);
      entries := entries + [m];
      entries := LTrim(entries, -maxEntries);
      log := log + [m];
    }

    /** The longest suffix of the whole conversation within the number of messages and the token budget. */
    method GetMessages(count: Tokenizer, maxTokens: int) returns (selected: seq<Message>)
      requires Valid()
      ensures IsLongestFit(count, entries, maxTokens, selected)
      ensures IsLongestWithin(count, maxEntries, log, maxTokens, selected)
    {
      selected := [];
      var total, i := 0, |entries|;
      while i > 0
        invariant 0 <= i <= |entries|
        invariant selected == entries[i..]
        invariant total == Tokens(count, selected)
        invariant selected != [] ==> total <= maxTokens
      {
        var tokens := count(entries[i - 1].content);
        TokensCons(count, entries[i - 1], selected);
        assert [entries[i - 1]] + entries[i..] == entries[i - 1..];
        if total + tokens > maxTokens {
          break;
        }
        selected := [entries[i - 1]] + selected;
        total := total + tokens;
        i := i - 1;
      }
      LongestFit(count, entries, maxTokens, i);
      ReadsLongestSuffix(count, maxEntries, log, maxTokens, selected);
    }
  }

  ghost predicate IsSuffix(a: seq<Message>, s: seq<Message>) {
    |a| <= |s| && a == s[|s| - |a|..]
  }

  /** Every suffix that fits is no longer than `a`, and `a` fits unless it is empty. */
  ghost predicate IsLongestFit(count: Tokenizer, s: seq<Message>, maxTokens: int, a: seq<Message>) {
    && IsSuffix(a, s)
    && (a != [] ==> Tokens(count, a) <= maxTokens)
    && forall b :: IsSuffix(b, s) && Tokens(count, b) <= maxTokens ==> |b| <= |a|
  }

  lemma {:induction false} TokensConcat(count: Tokenizer, a: seq<Message>, b: seq<Message>)
    ensures Tokens(count, a + b) == Tokens(count, a) + Tokens(count, b)
  {
    if b == [] {
      assert a + b == a;
    } else {
      assert (a + b)[..|a + b| - 1] == a + b[..|b| - 1];
      TokensConcat(count, a, b[..|b| - 1]);
    }
  }

  lemma {:induction false} TokensCons(count: Tokenizer, m: Message, ms: seq<Message>)
    ensures Tokens(count, [m] + ms) == count(m.content) + Tokens(count, ms)
  {
    TokensConcat(count, [m], ms);
    assert [m][..0] == [];
  }

  /** A longer suffix holds at least as many tokens. */
  lemma {:induction false} LongerCostsMore(count: Tokenizer, s: seq<Message>, i: nat, j: nat)
    requires i <= j <= |s|
    ensures Tokens(count, s[j..]) <= Tokens(count, s[i..])
  {
    assert s[i..] == s[i..j] + s[j..];
    TokensConcat(count, s[i..j], s[j..]);
  }

  /** The greedy walk from the end stops at the longest suffix that fits. */
  lemma {:induction false} LongestFit(count: Tokenizer, s: seq<Message>, maxTokens: int, i: nat)
    requires i <= |s|
    requires i < |s| ==> Tokens(count, s[i..]) <= maxTokens
    requires i > 0 ==> Tokens(count, s[i - 1..]) > maxTokens
    ensures IsLongestFit(count, s, maxTokens, s[i..])
  {
    forall b | IsSuffix(b, s) && Tokens(count, b) <= maxTokens
      ensures |b| <= |s| - i
    {
      if |b| > |s| - i {
        LongerCostsMore(count, s, |s| - |b|, i - 1);
        assert false;
      }
    }
  }

  // ---- Whole conversations ----------------------------------------------------------------

  /** The stored list after appending every message of `log`. */
  function Stored(maxEntries: int, log: seq<Message>): seq<Message> {
    if log == [] then [] else LTrim(Stored(maxEntries, log[..|log| - 1]) + [log[|log| - 1]], -maxEntries)
  }

  /** Trimming after every append keeps what one trim at the end would keep. */
  lemma {:induction false} StoredIsKept(maxEntries: int, log: seq<Message>)
    ensures Stored(maxEntries, log) == Kept(maxEntries, log)
    ensures IsSuffix(Stored(maxEntries, log), log)
    ensures |Stored(maxEntries, log)| ==
            if maxEntries == 0 || |log| <= maxEntries then |log| else if maxEntries < 0 then 0 else maxEntries
  {
    hide LTrim;
    if log != [] {
      var before, m := log[..|log| - 1], log[|log| - 1];
      StoredIsKept(maxEntries, before);
      TrimKeeps(maxEntries, before, m);
      assert log == before + [m];
    }
  }

  /**
   Whether a list of `n` messages is within the configured number; 0 sets no limit and a negative one admits
   nothing.
   */
  predicate Within(maxEntries: int, n: nat) {
    maxEntries == 0 || n == 0 || n <= maxEntries
  }

  /** The stored list stays within the limit, for every conversation, exactly when the limit is not 0. */
  lemma {:induction false} BoundedIffNonZero(maxEntries: int)
    ensures maxEntries != 0 <==>
            forall log :: |Stored(maxEntries, log)| <= if maxEntries < 0 then 0 else maxEntries
  {
    if maxEntries != 0 {
      forall log ensures |Stored(maxEntries, log)| <= if maxEntries < 0 then 0 else maxEntries {
        StoredIsKept(maxEntries, log);
      }
    } else {
      var log := [Message("user", "")];
      StoredIsKept(0, log);
      assert |Stored(maxEntries, log)| > 0;
    }
  }

  /** Among the suffixes of the conversation within both limits `a` is the longest; the empty one is always within. */
  ghost predicate IsLongestWithin(count: Tokenizer, maxEntries: int, log: seq<Message>, maxTokens: int,
                                  a: seq<Message>) {
    && IsSuffix(a, log) && Within(maxEntries, |a|) && (a != [] ==> Tokens(count, a) <= maxTokens)
    && forall b :: IsSuffix(b, log) && Within(maxEntries, |b|) && Tokens(count, b) <= maxTokens ==> |b| <= |a|
  }

  /** A suffix within the limit is a suffix of what is kept. */
  lemma {:induction false} SuffixKept(maxEntries: int, log: seq<Message>, b: seq<Message>)
    ensures IsSuffix(b, Kept(maxEntries, log)) <==> IsSuffix(b, log) && Within(maxEntries, |b|)
  {
    var kept := Kept(maxEntries, log);
    assert kept == log[|log| - |kept|..];
    if |b| <= |kept| {
      assert kept[|kept| - |b|..] == log[|log| - |b|..];
    }
  }

  /** What is read back is the longest suffix of the whole conversation within both limits. */
  lemma {:induction false} ReadsLongestSuffix(count: Tokenizer, maxEntries: int, log: seq<Message>, maxTokens: int,
                                              a: seq<Message>)
    requires IsLongestFit(count, Kept(maxEntries, log), maxTokens, a)
    ensures IsLongestWithin(count, maxEntries, log, maxTokens, a)
  {
    hide Kept, Within, IsSuffix, Tokens;
    SuffixKept(maxEntries, log, a);
    forall b | IsSuffix(b, log) && Within(maxEntries, |b|) && Tokens(count, b) <= maxTokens
      ensures |b| <= |a|
    {
      SuffixKept(maxEntries, log, b);
    }
  }
}
