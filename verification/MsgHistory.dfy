/** The history sent with a question: a loop that starts over at every message with media. */
module MsgHistory {

  const TEXT := 0
  const RECENT := 20

  datatype Message = Message(content: string, kind: int, url: string, urls: seq<string>, fromUser: bool, voice: string)

  datatype Entry = Entry(sender: string, content: string, kind: int, url: string, urls: seq<string>, voice: string)

  predicate IsMedia(m: Message) {
    m.kind != TEXT && m.fromUser && m.urls != []
  }

  function Plain(m: Message): Entry {
    Entry(if m.fromUser then "user" else "assistant", m.content, m.kind, m.url, [], m.voice)
  }

  /** age counts the messages from this one to the end. */
  function Head(m: Message, age: int): Entry {
    Plain(m).(urls := if age > RECENT then [] else m.urls)
  }

  function Plains(ms: seq<Message>): (r: seq<Entry>)
    ensures |r| == |ms|
  {
    seq(|ms|, i requires 0 <= i < |ms| => Plain(ms[i]))
  }

  /** The position of the last media message, -1 if there is none. */
  function LastMedia(ms: seq<Message>): (c: int)
    ensures -1 <= c < |ms|
    ensures c >= 0 ==> IsMedia(ms[c])
    ensures forall i :: c < i < |ms| ==> !IsMedia(ms[i])
  {
    if ms == [] then -1
    else if IsMedia(ms[|ms| - 1]) then |ms| - 1
    else LastMedia(ms[..|ms| - 1])
  }

  /** The entries from position c on, c being a media message. */
  function From(ms: seq<Message>, c: nat, n: int): (r: seq<Entry>)
    requires c < |ms|
    ensures |r| == |ms| - c
  {
    seq(|ms| - c, i requires 0 <= i < |ms| - c => if i == 0 then Head(ms[c], n - c) else Plain(ms[c + i]))
  }

  /** The suffix from the last media message on, of a list that is the start of one of n messages. */
  function Suffix(ms: seq<Message>, n: int): seq<Entry> {
    var c := LastMedia(ms);
    if c < 0 then Plains(ms) else From(ms, c, n)
  }

  function History(ms: seq<Message>): seq<Entry> {
    Suffix(ms, |ms|)
  }

  function Reversed(ms: seq<Message>): (r: seq<Message>)
    ensures |r| == |ms|
  {
    seq(|ms|, i requires 0 <= i < |ms| => ms[|ms| - 1 - i])
  }

  // ----- the loop -----

  method Reverse(a: array<Message>)
    modifies a
    ensures a[..] == Reversed(old(a[..]))
  {
    var n := a.Length;
    for i := 0 to n / 2
      invariant forall k :: 0 <= k < i ==> a[k] == old(a[n - 1 - k]) && a[n - 1 - k] == old(a[k])
      invariant forall k :: i <= k < n - i ==> a[k] == old(a[k])
    {
      a[i], a[n - 1 - i] := a[n - 1 - i], a[i];
    }
  }

  /** The list comes newest first. */
  method GetMsgHistory(msgList: array<Message>) returns (msgHistory: seq<Entry>)
    modifies msgList
    ensures msgList[..] == Reversed(old(msgList[..]))
    ensures msgHistory == History(Reversed(old(msgList[..])))
  {
    Reverse(msgList);
    ghost var ms := msgList[..];
    msgHistory := [];
    assert ms[..0] == [];
    for idx := 0 to msgList.Length
      invariant msgList[..] == ms
      invariant msgHistory == Suffix(ms[..idx], |ms|)
    {
      var msg := msgList[idx];
      var history := Entry("", msg.content, msg.kind, msg.url, [], msg.voice);
      if msg.kind != TEXT && msg.fromUser && |msg.urls| > 0 {
        msgHistory := [];
        history := history.(urls := msg.urls);
        if msgList.Length - idx > 20 {
          history := history.(urls := []);
        }
      }
      history := history.(sender := if msg.fromUser then "user" else "assistant");
      SuffixSnoc(ms[..idx], msg, |ms|);
      assert ms[..idx + 1] == ms[..idx] + [msg];
      msgHistory := msgHistory + [history];
    }
    assert ms[..|ms|] == ms;
  }

  lemma SuffixSnoc(ms: seq<Message>, m: Message, n: int)
    ensures Suffix(ms + [m], n) ==
              if IsMedia(m) then [Head(m, n - |ms|)] else Suffix(ms, n) + [Plain(m)]
  {
    LastMediaSnoc(ms, m);
    var c := LastMedia(ms);
    if IsMedia(m) {
      assert From(ms + [m], |ms|, n) == [Head(m, n - |ms|)];
    } else if c < 0 {
      PlainsSnoc(ms, m);
    } else {
      FromSnoc(ms, m, c, n);
    }
  }

  lemma PlainsSnoc(ms: seq<Message>, m: Message)
    ensures Plains(ms + [m]) == Plains(ms) + [Plain(m)]
  {
  }

  lemma FromSnoc(ms: seq<Message>, m: Message, c: nat, n: int)
    requires c < |ms|
    ensures From(ms + [m], c, n) == From(ms, c, n) + [Plain(m)]
  {
  }

  lemma LastMediaSnoc(ms: seq<Message>, m: Message)
    ensures LastMedia(ms + [m]) == if IsMedia(m) then |ms| else LastMedia(ms)
  {
    assert (ms + [m])[..|ms|] == ms;
  }

  // ----- main results -----

  function Start(ms: seq<Message>): nat {
    if LastMedia(ms) < 0 then 0 else LastMedia(ms)
  }

  /** The history starts at the last message of the user that is no text and carries URLs, and at the first
      message if there is none. */
  lemma StartIs(ms: seq<Message>, i: nat)
    ensures Start(ms) == 0 || Start(ms) < |ms|
    ensures Start(ms) > 0 ==> ms[Start(ms)].kind != 0 && ms[Start(ms)].fromUser && ms[Start(ms)].urls != []
    ensures Start(ms) < i < |ms| ==> !(ms[i].kind != 0 && ms[i].fromUser && ms[i].urls != [])
  {
  }

  /** The history is the messages from the start on, one entry each and in order; only its first entry
      can carry URLs, and it carries those of the media message exactly when that one is among the
      last twenty. */
  lemma HistoryIsSuffix(ms: seq<Message>, k: nat)
    ensures |History(ms)| == |ms| - Start(ms)
    ensures k < |History(ms)| ==>
              var e, m := History(ms)[k], ms[Start(ms) + k];
              && e.sender == (if m.fromUser then "user" else "assistant")
              && e.content == m.content && e.kind == m.kind && e.url == m.url && e.voice == m.voice
              && (e.urls != [] <==>
                    k == 0 && m.kind != 0 && m.fromUser && m.urls != [] && |ms| - Start(ms) <= 20)
              && (e.urls != [] ==> e.urls == m.urls)
  {
    var c := LastMedia(ms);
    if c >= 0 && 0 < k < |History(ms)| { assert !IsMedia(ms[c + k]); }
  }

  /** The lists loaded have at most twenty messages, so the URLs are always kept. */
  lemma UrlsKept(ms: seq<Message>)
    requires |ms| <= 20 && LastMedia(ms) >= 0
    ensures |History(ms)| > 0 && History(ms)[0].urls == ms[LastMedia(ms)].urls != []
  {
    HistoryIsSuffix(ms, 0);
  }

  /** What came before a list with media makes no difference. */
  lemma OlderMessagesDoNotMatter(older: seq<Message>, ms: seq<Message>)
    requires exists m :: m in ms && IsMedia(m)
    ensures History(older + ms) == History(ms)
  {
    var m :| m in ms && IsMedia(m);
    var i :| 0 <= i < |ms| && ms[i] == m;
    var all, c := older + ms, LastMedia(ms);
    assert c >= 0;
    LastMediaIs(all, |older| + c);
    assert From(all, |older| + c, |all|) == From(ms, c, |ms|);
  }

  lemma LastMediaIs(ms: seq<Message>, c: nat)
    requires c < |ms| && IsMedia(ms[c]) && forall i :: c < i < |ms| ==> !IsMedia(ms[i])
    ensures LastMedia(ms) == c
  {
  }
}
