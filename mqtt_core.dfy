/** The protocol helpers of the embedded MQTT 3.1.1 broker (`mqtt_core.c`):
    the prefix ACL, the topic-to-event maps, topic-filter matching, the
    remaining-length field, length-prefixed strings, the retained-message
    table and the subscription grant rule. Sockets, tasks and locks are not
    part of this model; a packet is the sequence of its bytes. */
module MqttCore {
  import opened Common
  import A = Automation

  const MAX_SUBS: nat := 8
  const MAX_TOPIC: nat := 96
  const MAX_PAYLOAD: nat := 512
  const RETAIN_MAX: nat := 32
  /** The SUBACK return code for a refused subscription. */
  const SUBACK_FAILURE: byte := 0x80

  // ------------------------------------------------------------------ ACL

  /** `prefix_match`: "*" matches every topic, any other prefix is a plain
      (case-sensitive) string prefix. */
  predicate PrefixMatch(prefix: string, topic: string) {
    prefix == "*" || (|prefix| <= |topic| && topic[..|prefix|] == prefix)
  }

  /** An entry of `k_acl`: the client-id prefix it applies to and the topic
      prefixes that client may publish and subscribe to. */
  datatype AclEntry = AclEntry(client: string, pub: string, sub: string)

  const Acl: seq<AclEntry> := [
    AclEntry("pn532", "access/", "access/"),
    AclEntry("laser", "laser/", "laser/"),
    AclEntry("relay", "relay/", "relay/"),
    AclEntry("puppet", "puppet/", "puppet/"),
    AclEntry("webui", "web/", "web/"),
    AclEntry("*", "*", "*")]

  /** The first ACL entry at or after `i` whose client prefix matches. */
  function AclIndex(client: string, i: nat := 0): (r: Option<nat>)
    requires i <= |Acl|
    ensures r.Some? ==> (i <= r.value < |Acl| && PrefixMatch(Acl[r.value].client, client)
      && forall j :: i <= j < r.value ==> !PrefixMatch(Acl[j].client, client))
    ensures r.None? ==> forall j :: i <= j < |Acl| ==> !PrefixMatch(Acl[j].client, client)
    decreases |Acl| - i
  {
    if i == |Acl| then None
    else if PrefixMatch(Acl[i].client, client) then Some(i)
    else AclIndex(client, i + 1)
  }

  /** `acl_can_publish` (`publish`) and `acl_can_subscribe`: the first entry
      whose client prefix matches decides; no matching entry denies. */
  predicate AclAllows(client: string, topic: string, publish: bool) {
    match AclIndex(client)
    case None => false
    case Some(k) => PrefixMatch(if publish then Acl[k].pub else Acl[k].sub, topic)
  }

  /** `acl_can_publish` and `acl_can_subscribe`: the loop over the table. */
  method AclCheck(client: string, topic: string, publish: bool) returns (ok: bool)
    ensures ok == AclAllows(client, topic, publish)
  {
    var i := 0;
    while i < |Acl|
      invariant i <= |Acl|
      invariant AclIndex(client, i) == AclIndex(client)
    {
      var e := Acl[i];
      if PrefixMatch(e.client, client) {
        return PrefixMatch(if publish then e.pub else e.sub, topic);
      }
      i := i + 1;
    }
    return false;
  }

  /** The last entry matches every client, so the table always decides. */
  lemma AclAlwaysDecides(client: string)
    ensures AclIndex(client).Some?
  {
    assert PrefixMatch(Acl[5].client, client);
  }

  /** A client whose id starts with one of the named prefixes ("pn532",
      "laser", "relay", "puppet", "webui") may publish and subscribe only
      under that entry's topic prefix: no earlier entry can also match,
      because the named prefixes differ within their common length. */
  lemma AclConfines(client: string, topic: string, k: nat)
    requires k < 5 && PrefixMatch(Acl[k].client, client)
    ensures AclAllows(client, topic, true) <==> PrefixMatch(Acl[k].pub, topic)
    ensures AclAllows(client, topic, false) <==> PrefixMatch(Acl[k].sub, topic)
  {
    forall j | 0 <= j < k ensures !PrefixMatch(Acl[j].client, client) {
      var d := if j == 0 && k == 3 then 1 else 0;
      assert Acl[j].client[d] != Acl[k].client[d];
      assert client[d] == Acl[k].client[d];
    }
    assert AclIndex(client) == Some(k);
  }

  /** A client whose id starts with none of the named prefixes falls to
      the default entry and may publish and subscribe to every topic. */
  lemma AclDefaultAllowsAll(client: string, topic: string)
    requires forall k :: 0 <= k < 5 ==> !PrefixMatch(Acl[k].client, client)
    ensures AclAllows(client, topic, true) && AclAllows(client, topic, false)
  {
    AclAlwaysDecides(client);
    assert AclIndex(client) == Some(5);
  }

  // ----------------------------------------------------- event topic maps

  /** `k_outgoing_map`: the topic an event type is published on. */
  const OutgoingMap: seq<(A.EventType, string)> := [
    (A.AudioPlayEvent, "audio/play"), (A.SystemStatus, "sys/broker/metrics"),
    (A.CardOk, "access/card/ok"), (A.CardBad, "access/card/bad"),
    (A.RelayCmd, "relay/cmd"), (A.WebCommand, "web/cmd")]

  /** `k_incoming_map`: topic prefixes that turn an incoming message into
      an event. */
  const IncomingMap: seq<(A.EventType, string)> := [
    (A.AudioPlayEvent, "audio/play"), (A.RelayCmd, "relay/"), (A.WebCommand, "web/cmd")]

  /** `find_topic_by_type`: the topic of the first outgoing entry of the
      type, if any. */
  function TopicForEvent(t: A.EventType, i: nat := 0): (r: Option<string>)
    requires i <= |OutgoingMap|
    ensures r.Some? <==> exists k :: i <= k < |OutgoingMap| && OutgoingMap[k].0 == t
    ensures r.Some? ==> exists k :: i <= k < |OutgoingMap| && OutgoingMap[k] == (t, r.value)
    decreases |OutgoingMap| - i
  {
    if i == |OutgoingMap| then None
    else if OutgoingMap[i].0 == t then Some(OutgoingMap[i].1)
    else TopicForEvent(t, i + 1)
  }

  /** `find_type_by_topic`: the type of the first incoming entry whose topic
      is a prefix of `topic`; EVENT_NONE when there is none. */
  function TypeForTopic(topic: string, i: nat := 0): (r: A.EventType)
    requires i <= |IncomingMap|
    ensures r != A.EventNone <==> exists k :: i <= k < |IncomingMap| && PrefixMatch(IncomingMap[k].1, topic)
    ensures r != A.EventNone ==> exists k :: (i <= k < |IncomingMap| && PrefixMatch(IncomingMap[k].1, topic)
      && r == IncomingMap[k].0)
    decreases |IncomingMap| - i
  {
    if i == |IncomingMap| then A.EventNone
    else if PrefixMatch(IncomingMap[i].1, topic) then IncomingMap[i].0
    else TypeForTopic(topic, i + 1)
  }

  /** `find_type_by_topic`: the loop over the incoming map. */
  method FindTypeByTopic(topic: string) returns (r: A.EventType)
    ensures r == TypeForTopic(topic)
  {
    var i := 0;
    while i < |IncomingMap|
      invariant i <= |IncomingMap|
      invariant TypeForTopic(topic, i) == TypeForTopic(topic)
    {
      var t := IncomingMap[i].1;
      if |t| <= |topic| && topic[..|t|] == t {
        return IncomingMap[i].0;
      }
      i := i + 1;
    }
    return A.EventNone;
  }

  /** Audio, relay and web commands published by the broker come back as
      the same event when it receives them. */
  lemma CommandTopicsRoundTrip()
    ensures TypeForTopic(TopicForEvent(A.AudioPlayEvent).value) == A.AudioPlayEvent
    ensures TypeForTopic(TopicForEvent(A.RelayCmd).value) == A.RelayCmd
    ensures TypeForTopic(TopicForEvent(A.WebCommand).value) == A.WebCommand
  {
    AudioTopicRoundTrip();
    RelayTopicRoundTrip();
    WebTopicRoundTrip();
  }

  lemma AudioTopicRoundTrip()
    ensures TypeForTopic(TopicForEvent(A.AudioPlayEvent).value) == A.AudioPlayEvent
  {
    assert TopicForEvent(A.AudioPlayEvent) == Some("audio/play");
  }

  lemma RelayTopicRoundTrip()
    ensures TypeForTopic(TopicForEvent(A.RelayCmd).value) == A.RelayCmd
  {
    assert TopicForEvent(A.RelayCmd) == Some("relay/cmd");
    assert !PrefixMatch("audio/play", "relay/cmd") by { assert "relay/cmd"[0] == 'r'; }
    assert PrefixMatch("relay/", "relay/cmd");
  }

  lemma WebTopicRoundTrip()
    ensures TypeForTopic(TopicForEvent(A.WebCommand).value) == A.WebCommand
  {
    assert TopicForEvent(A.WebCommand) == Some("web/cmd");
    assert !PrefixMatch("audio/play", "web/cmd") by { assert "web/cmd"[0] == 'w'; }
    assert !PrefixMatch("relay/", "web/cmd") by { assert "web/cmd"[0] == 'w'; }
  }

  /** Card and status events the broker publishes are not turned back
      into events. */
  lemma StatusTopicsNotEchoed()
    ensures TypeForTopic(TopicForEvent(A.CardOk).value) == A.EventNone
    ensures TypeForTopic(TopicForEvent(A.SystemStatus).value) == A.EventNone
  {
    assert TopicForEvent(A.CardOk) == Some("access/card/ok");
    assert TopicForEvent(A.SystemStatus) == Some("sys/broker/metrics");
    assert "access/card/ok"[1] == 'c' && "sys/broker/metrics"[1] == 'y';
    NoIncomingPrefix("access/card/ok");
    NoIncomingPrefix("sys/broker/metrics");
  }

  lemma NoIncomingPrefix(topic: string)
    requires |topic| > 1 && topic[1] != 'u' && topic[0] != 'r' && topic[0] != 'w'
    ensures TypeForTopic(topic) == A.EventNone
  {
    assert !PrefixMatch(IncomingMap[0].1, topic) by { assert IncomingMap[0].1[1] == 'u'; }
    assert !PrefixMatch(IncomingMap[1].1, topic) by { assert IncomingMap[1].1[0] == 'r'; }
    assert !PrefixMatch(IncomingMap[2].1, topic) by { assert IncomingMap[2].1[0] == 'w'; }
  }

  // --------------------------------------------------- topic filter match

  /** The rest of `t` from the end of its first level: from its first '/',
      or empty when it has none. */
  function SkipLevel(t: string): (r: string)
    ensures |r| <= |t|
    ensures r == [] || r[0] == '/'
  {
    if t == [] || t[0] == '/' then t else SkipLevel(t[1..])
  }

  /** `topic_matches_filter` as written: after a '+' it skips the topic
      level and then also the topic's '/', but not the filter's. */
  function MatchesAsWritten(f: string, t: string): bool
    decreases |f|
  {
    if f == [] || t == [] then (f == [] && t == []) || f == "#"
    else if f[0] == '#' then true
    else if f[0] == '+' then
      var r := SkipLevel(t);
      MatchesAsWritten(f[1..], if r != [] then r[1..] else r)
    else f[0] == t[0] && MatchesAsWritten(f[1..], t[1..])
  }

  /** `topic_matches_filter` with the '+' step consuming one topic level
      and leaving the separators of filter and topic to be compared: '#'
      matches the rest of the topic, '+' one level, every other character
      itself. */
  function Matches(f: string, t: string): bool
    decreases |f|
  {
    if f == [] || t == [] then (f == [] && t == []) || f == "#"
    else if f[0] == '#' then true
    else if f[0] == '+' then Matches(f[1..], SkipLevel(t))
    else f[0] == t[0] && Matches(f[1..], t[1..])
  }

  /** A '+' in front of another level never matches as written, even
      though the level structure fits. */
  lemma PlusBeforeLevelAsWritten()
    ensures !MatchesAsWritten("a/+/c", "a/b/c")
  {
    assert SkipLevel("/c") == "/c";
    assert SkipLevel("b/c") == "/c" by { assert "b/c"[1..] == "/c"; }
    assert !MatchesAsWritten("/c", "c");
    assert MatchesAsWritten("+/c", "b/c") == MatchesAsWritten("/c", "c") by {
      assert "+/c"[1..] == "/c" && "/c"[1..] == "c";
    }
    assert MatchesAsWritten("/+/c", "/b/c") == MatchesAsWritten("+/c", "b/c") by {
      assert "/+/c"[1..] == "+/c" && "/b/c"[1..] == "b/c";
    }
    assert "a/+/c"[1..] == "/+/c" && "a/b/c"[1..] == "/b/c";
  }

  /** With the corrected '+' step the same filter matches. */
  lemma PlusBeforeLevelCorrected()
    ensures Matches("a/+/c", "a/b/c")
  {
    assert SkipLevel("/c") == "/c";
    assert SkipLevel("b/c") == "/c" by { assert "b/c"[1..] == "/c"; }
    assert Matches("c", "c") by { assert "c"[1..] == []; }
    assert Matches("/c", "/c") by { assert "/c"[1..] == "c"; }
    assert Matches("+/c", "b/c") == Matches("/c", "/c") by {
      assert "+/c"[1..] == "/c";
    }
    assert Matches("/+/c", "/b/c") == Matches("+/c", "b/c") by {
      assert "/+/c"[1..] == "+/c" && "/b/c"[1..] == "b/c";
    }
    assert "a/+/c"[1..] == "/+/c" && "a/b/c"[1..] == "/b/c";
  }

  /** The defect is confined to '+': on a filter without '+' the matcher
      as written and the corrected one agree on every topic. */
  lemma {:induction false} AsWrittenAgreesWithoutPlus(f: string, t: string)
    requires forall k :: 0 <= k < |f| ==> f[k] != '+'
    ensures MatchesAsWritten(f, t) == Matches(f, t)
    decreases |f|
  {
    if f != [] && t != [] && f[0] != '#' {
      assert f[0] != '+';
      AsWrittenAgreesWithoutPlus(f[1..], t[1..]);
    }
  }

  predicate NoWildcards(f: string) {
    forall k :: 0 <= k < |f| ==> f[k] != '+' && f[k] != '#'
  }

  /** A filter without wildcards matches exactly the identical topic. */
  lemma {:induction false} PlainFilterExact(f: string, t: string)
    requires NoWildcards(f)
    ensures Matches(f, t) <==> f == t
    decreases |f|
  {
    if f != [] && t != [] {
      PlainFilterExact(f[1..], t[1..]);
      if f[0] == t[0] && f[1..] == t[1..] {
        assert f == [f[0]] + f[1..] && t == [t[0]] + t[1..];
      }
    } else if f != [] {
      assert f[0] != '#';
    }
  }

  /** A filter ending in '#' after a plain prefix matches exactly the
      topics that start with that prefix. */
  lemma {:induction false} HashMatchesRest(p: string, t: string)
    requires NoWildcards(p)
    ensures Matches(p + "#", t) <==> (|p| <= |t| && t[..|p|] == p)
    decreases |p|
  {
    var f := p + "#";
    if p == [] {
      assert f == "#";
    } else if t != [] {
      assert f[1..] == p[1..] + "#";
      HashMatchesRest(p[1..], t[1..]);
      if |p| <= |t| && t[..|p|] == p {
        assert t[1..][..|p| - 1] == p[1..];
      }
      if p[0] == t[0] && |p| - 1 <= |t| - 1 && t[1..][..|p| - 1] == p[1..] {
        assert t[..|p|] == [t[0]] + t[1..][..|p| - 1];
      }
    } else {
      assert f != "#" by { assert |f| > 1; }
    }
  }

  /** '+' consumes exactly one level: a level without '/' followed by the
      rest of a topic (empty or starting at a '/') matches "+" followed by
      the rest of the filter iff the rest of the topic matches it. */
  lemma PlusMatchesOneLevel(f: string, level: string, rest: string)
    requires forall k :: 0 <= k < |level| ==> level[k] != '/'
    requires rest == [] || rest[0] == '/'
    requires level + rest != []
    ensures Matches("+" + f, level + rest) == Matches(f, rest)
  {
    var t := level + rest;
    SkipLevelOf(level, rest);
    assert ("+" + f)[1..] == f;
  }

  lemma {:induction false} SkipLevelOf(level: string, rest: string)
    requires forall k :: 0 <= k < |level| ==> level[k] != '/'
    requires rest == [] || rest[0] == '/'
    ensures SkipLevel(level + rest) == rest
    decreases |level|
  {
    if level != [] {
      assert (level + rest)[1..] == level[1..] + rest;
      SkipLevelOf(level[1..], rest);
    } else {
      assert level + rest == rest;
    }
  }

  /** `topic_matches_filter`: the inner loop of the '+' step, moving to
      the end of the current topic level. */
  method SkipTopicLevel(topic: string, j: nat) returns (k: nat)
    requires j <= |topic|
    ensures j <= k <= |topic| && topic[k..] == SkipLevel(topic[j..])
  {
    k := j;
    while k < |topic| && topic[k] != '/'
      invariant j <= k <= |topic|
      invariant SkipLevel(topic[k..]) == SkipLevel(topic[j..])
    {
      assert topic[k..][1..] == topic[k + 1..];
      k := k + 1;
    }
  }

  /** `topic_matches_filter`: the loop walking filter and topic together,
      with the corrected '+' step. */
  method TopicMatchesFilter(filter: string, topic: string) returns (r: bool)
    ensures r == Matches(filter, topic)
  {
    var i, j := 0, 0;
    while i < |filter| && j < |topic|
      invariant i <= |filter| && j <= |topic|
      invariant Matches(filter[i..], topic[j..]) == Matches(filter, topic)
      decreases |filter| - i
    {
      assert filter[i..][1..] == filter[i + 1..];
      if filter[i] == '#' {
        return true;
      }
      if filter[i] == '+' {
        j := SkipTopicLevel(topic, j);
        i := i + 1;
        continue;
      }
      if filter[i] != topic[j] {
        return false;
      }
      assert topic[j..][1..] == topic[j + 1..];
      i, j := i + 1, j + 1;
    }
    r := (i == |filter| && j == |topic|) || (i < |filter| && filter[i] == '#' && i + 1 == |filter|);
    MatchEnd(filter[i..], topic[j..]);
  }

  /** Where filter or topic is used up, the match is decided. */
  lemma MatchEnd(f: string, t: string)
    requires f == [] || t == []
    ensures Matches(f, t) <==> (f == [] && t == []) || (|f| == 1 && f[0] == '#')
  {
    if |f| == 1 && f[0] == '#' {
      assert f == "#";
    }
  }

  // ------------------------------------------------------ remaining length

  /** `encode_remaining_length` with `room` bytes left in the field: seven
      bits per byte, least significant first, the top bit set while more
      of the value follows, at most `room` bytes. */
  function Enc(n: nat, room: nat): (r: seq<byte>)
    requires room >= 1
    ensures 1 <= |r| <= room
    decreases room
  {
    [LowByte(n)] + (if n / 128 > 0 && room > 1 then Enc(n / 128, room - 1) else [])
  }

  /** One byte of the field: the low seven bits, with the continuation bit
      set when more of the value follows. */
  function LowByte(n: nat): (b: byte)
    ensures b as int == n % 128 + (if n / 128 > 0 then 128 else 0)
  {
    (n % 128 + (if n / 128 > 0 then 128 else 0)) as byte
  }

  /** The remaining-length field of a value: at most 4 bytes. */
  function EncodeLength(n: nat): (r: seq<byte>)
    ensures 1 <= |r| <= 4
    ensures r[0] as int % 128 == n % 128
    ensures |r| == 1 <==> n < 128
  {
    Enc(n, 4)
  }

  /** `encode_remaining_length`: the do-while loop writing the field. */
  method EncodeRemainingLength(n: nat) returns (out: seq<byte>)
    ensures out == EncodeLength(n)
  {
    var rem := n;
    out := [];
    while true
      invariant |out| < 4
      invariant out + Enc(rem, 4 - |out|) == EncodeLength(n)
      decreases 4 - |out|
    {
      var rest := rem / 128;
      var b := rem % 128;
      if rest > 0 {
        b := b + 128;
      }
      EncStep(out, rem, n);
      assert b as byte == LowByte(rem);
      out := out + [b as byte];
      rem := rest;
      if !(rem > 0 && |out| < 4) {
        return;
      }
    }
  }

  /** One turn of the do-while loop: the next byte is written, and either
      the field is complete or the rest of the value follows. */
  lemma EncStep(out: seq<byte>, rem: nat, n: nat)
    requires |out| < 4 && out + Enc(rem, 4 - |out|) == EncodeLength(n)
    ensures var next := out + [LowByte(rem)];
            if rem / 128 > 0 && |next| < 4 then next + Enc(rem / 128, 4 - |next|) == EncodeLength(n)
            else next == EncodeLength(n)
  {
    var next := out + [LowByte(rem)];
    if rem / 128 > 0 && |next| < 4 {
      assert out + Enc(rem, 4 - |out|) == next + Enc(rem / 128, 4 - |next|);
    } else {
      assert Enc(rem, 4 - |out|) == [LowByte(rem)];
    }
  }

  /** How many base-128 digits a value has. */
  function Digits(n: nat): (d: nat)
    ensures d >= 1
  {
    if n < 128 then 1 else 1 + Digits(n / 128)
  }

  /** The field has one byte per base-128 digit, up to 4; every byte but
      the last has its continuation bit set; the last has it clear exactly
      when the value fits (below 2^28), so larger values are cut off. */
  lemma {:induction false} EncShape(n: nat, room: nat)
    requires room >= 1
    ensures var r := Enc(n, room);
      |r| == Min(Digits(n), room)
      && (forall k :: 0 <= k < |r| - 1 ==> r[k] >= 128)
      && (r[|r| - 1] < 128 <==> Digits(n) <= room)
    decreases room
  {
    var r := Enc(n, room);
    if n >= 128 {
      assert Digits(n) == 1 + Digits(n / 128);
      assert r[0] as int == n % 128 + 128;
      if room > 1 {
        EncShape(n / 128, room - 1);
        assert r == [r[0]] + Enc(n / 128, room - 1);
      } else {
        assert r == [r[0]];
      }
    } else {
      assert Digits(n) == 1;
      assert r == [n as byte];
    }
  }

  /** `read_remaining_length` from byte `i` of the stream with the running
      multiplier and value; None when the stream ends or the multiplier
      passes 128^3. */
  function Rd(bs: seq<byte>, i: nat, mult: nat, value: nat): Option<(nat, nat)>
    decreases |bs| - i
  {
    if i >= |bs| then None
    else
      var v := value + (bs[i] as nat % 128) * mult;
      var m := mult * 128;
      if m > 128 * 128 * 128 then None
      else if bs[i] >= 128 then Rd(bs, i + 1, m, v)
      else Some((v, i + 1))
  }

  /** `read_remaining_length`: the value and the number of bytes read. */
  function ReadLength(bs: seq<byte>): Option<(nat, nat)> { Rd(bs, 0, 1, 0) }

  /** `read_remaining_length`: the do-while loop reading one byte at a
      time. */
  method ReadRemainingLength(stream: seq<byte>) returns (r: Option<(nat, nat)>)
    ensures r == ReadLength(stream)
  {
    var mult: nat := 1;
    var value: nat := 0;
    var i := 0;
    while true
      invariant i <= |stream|
      invariant Rd(stream, i, mult, value) == ReadLength(stream)
      decreases |stream| - i
    {
      if i >= |stream| {
        return None;
      }
      var encoded := stream[i];
      value := value + (encoded as nat % 128) * mult;
      mult := mult * 128;
      if mult > 128 * 128 * 128 {
        return None;
      }
      i := i + 1;
      if encoded < 128 {
        return Some((value, i));
      }
    }
  }

  /** Reading the field back gives the value for every value below
      2,097,152 (three bytes), whatever follows it. */
  lemma LengthRoundTrip(n: nat, rest: seq<byte>)
    requires n < 2097152
    ensures ReadLength(EncodeLength(n) + rest) == Some((n, |EncodeLength(n)|))
  {
    var e := EncodeLength(n);
    var bs := e + rest;
    if n < 128 {
      assert bs[0] == n as byte;
    } else if n < 16384 {
      assert e == [(n % 128 + 128) as byte, (n / 128) as byte];
      assert bs[0] == e[0] && bs[1] == e[1];
      assert Rd(bs, 1, 128, n % 128) == Some((n, 2));
    } else {
      assert e == [(n % 128 + 128) as byte, (n / 128 % 128 + 128) as byte, (n / 16384) as byte];
      assert bs[0] == e[0] && bs[1] == e[1] && bs[2] == e[2];
      assert Rd(bs, 0, 1, 0) == Rd(bs, 1, 128, n % 128);
      assert n % 128 + (n / 128 % 128) * 128 == n % 16384;
      assert Rd(bs, 1, 128, n % 128) == Rd(bs, 2, 16384, n % 16384);
      assert n % 16384 + (n / 16384) * 16384 == n;
      assert Rd(bs, 2, 16384, n % 16384) == Some((n, 3));
    }
  }

  /** The reader never accepts a fourth byte: three bytes that all carry
      the continuation bit are refused, so only values below 2,097,152
      are ever read. */
  lemma ReaderRefusesFourBytes(bs: seq<byte>)
    requires |bs| >= 3 && bs[0] >= 128 && bs[1] >= 128 && bs[2] >= 128
    ensures ReadLength(bs) == None
  {
    var v0 := bs[0] as nat % 128;
    var v1 := v0 + (bs[1] as nat % 128) * 128;
    var v2 := v1 + (bs[2] as nat % 128) * 16384;
    assert Rd(bs, 3, 2097152, v2) == None;
    assert Rd(bs, 2, 16384, v1) == None;
    assert Rd(bs, 1, 128, v0) == None;
  }

  /** What the reader accepts is one to three bytes long and below
      2,097,152. */
  lemma ReadLengthBounds(bs: seq<byte>)
    ensures ReadLength(bs).Some? ==> (1 <= ReadLength(bs).value.1 <= 3 && ReadLength(bs).value.0 < 2097152)
  {
    if |bs| >= 1 && bs[0] >= 128 {
      var v0 := bs[0] as nat % 128;
      assert ReadLength(bs) == Rd(bs, 1, 128, v0);
      if |bs| >= 2 && bs[1] >= 128 {
        var v1 := v0 + (bs[1] as nat % 128) * 128;
        assert Rd(bs, 1, 128, v0) == Rd(bs, 2, 16384, v1);
        if |bs| >= 3 && bs[2] >= 128 {
          var v2 := v1 + (bs[2] as nat % 128) * 16384;
          assert Rd(bs, 2, 16384, v1) == Rd(bs, 3, 2097152, v2) == None;
        } else if |bs| >= 3 {
          assert v1 + (bs[2] as nat % 128) * 16384 < 2097152;
        }
      }
    }
  }

  // ------------------------------------------------ length-prefixed string

  /** The characters of a byte string. */
  function Chars(bs: seq<byte>): (s: string)
    ensures |s| == |bs| && forall k :: 0 <= k < |bs| ==> s[k] as int == bs[k] as int
  {
    seq(|bs|, k requires 0 <= k < |bs| => (bs[k] as int) as char)
  }

  /** `parse_utf8_str`: a two-byte big-endian length and that many bytes at
      `offset`; fails when the field runs past the buffer or the string
      does not fit an output buffer of `outLen` bytes with its NUL. The
      string and the offset after it. */
  function ParseUtf8Str(buf: seq<byte>, offset: nat, outLen: nat): (r: Option<(string, nat)>)
    ensures r.Some? ==> (offset + 2 + |r.value.0| == r.value.1 <= |buf| && |r.value.0| < outLen
      && |r.value.0| == buf[offset] as nat * 256 + buf[offset + 1] as nat)
  {
    if offset + 2 > |buf| then None
    else
      var slen := buf[offset] as nat * 256 + buf[offset + 1] as nat;
      if offset + 2 + slen > |buf| || slen >= outLen then None
      else Some((Chars(buf[offset + 2..offset + 2 + slen]), offset + 2 + slen))
  }

  /** A string field as a client writes it (section 1.5.3 of MQTT 3.1.1). */
  function EncodeUtf8Str(s: string): (r: seq<byte>)
    requires |s| <= 65535 && forall k :: 0 <= k < |s| ==> s[k] as int < 256
    ensures |r| == |s| + 2
  {
    [(|s| / 256) as byte, (|s| % 256) as byte] + seq(|s|, k requires 0 <= k < |s| => (s[k] as int) as byte)
  }

  /** A string field written after any bytes and followed by any bytes is
      read back, and the offset moves just past it, when the string fits
      the output buffer; a string that does not fit is refused. */
  lemma Utf8StrRoundTrip(before: seq<byte>, s: string, after: seq<byte>, outLen: nat)
    requires |s| <= 65535 && forall k :: 0 <= k < |s| ==> s[k] as int < 256
    ensures var buf := before + EncodeUtf8Str(s) + after;
      ParseUtf8Str(buf, |before|, outLen)
        == if |s| < outLen then Some((s, |before| + 2 + |s|)) else None
  {
    var e := EncodeUtf8Str(s);
    var buf := before + e + after;
    var o := |before|;
    assert buf[o] == e[0] && buf[o + 1] == e[1];
    assert buf[o] as nat * 256 + buf[o + 1] as nat == |s|;
    if |s| < outLen {
      assert buf[o + 2..o + 2 + |s|] == e[2..];
      assert Chars(e[2..]) == s;
    }
  }

  // ------------------------------------------------------- retained table

  /** A slot of the retained-message table. */
  datatype RetainEntry = RetainEntry(inUse: bool, topic: string, payload: string, qos: nat)

  const EmptyRetain: RetainEntry := RetainEntry(false, "", "", 0)

  /** `retain_get`: the first slot in use at or after `i` holding exactly
      `topic`. */
  function RetainFind(entries: seq<RetainEntry>, topic: string, i: nat := 0): (r: Option<nat>)
    requires i <= |entries|
    ensures r.Some? ==> (i <= r.value < |entries| && entries[r.value].inUse && entries[r.value].topic == topic
      && forall j :: i <= j < r.value ==> !(entries[j].inUse && entries[j].topic == topic))
    ensures r.None? ==> forall j :: i <= j < |entries| ==> !(entries[j].inUse && entries[j].topic == topic)
    decreases |entries| - i
  {
    if i == |entries| then None
    else if entries[i].inUse && entries[i].topic == topic then Some(i)
    else RetainFind(entries, topic, i + 1)
  }

  /** The first slot not in use at or after `i`. */
  function RetainFree(entries: seq<RetainEntry>, i: nat := 0): (r: Option<nat>)
    requires i <= |entries|
    ensures r.Some? ==> (i <= r.value < |entries| && !entries[r.value].inUse
      && forall j :: i <= j < r.value ==> entries[j].inUse)
    ensures r.None? ==> forall j :: i <= j < |entries| ==> entries[j].inUse
    decreases |entries| - i
  {
    if i == |entries| then None
    else if !entries[i].inUse then Some(i)
    else RetainFree(entries, i + 1)
  }

  /** `retain_store`: the slot holding the topic is overwritten, else the
      first free slot is taken; a full table drops the message. The topic
      keeps at most 95 characters and the payload at most 511. */
  function RetainStore(entries: seq<RetainEntry>, topic: string, payload: string, qos: nat): seq<RetainEntry> {
    var slot := if RetainFind(entries, topic).Some? then RetainFind(entries, topic) else RetainFree(entries);
    match slot
    case None => entries
    case Some(k) =>
      entries[k := RetainEntry(true, Prefix(topic, MAX_TOPIC - 1), Prefix(payload, MAX_PAYLOAD - 1), qos)]
  }

  /** After storing a topic that fits, looking it up finds the stored
      message, its payload truncated to 511 characters; only a full table
      without the topic drops it. */
  lemma StoreThenFind(entries: seq<RetainEntry>, topic: string, payload: string, qos: nat)
    requires |topic| < MAX_TOPIC
    ensures var r := RetainStore(entries, topic, payload, qos);
      |r| == |entries|
      && (RetainFind(entries, topic).None? && RetainFree(entries).None? ==> r == entries)
      && (RetainFind(entries, topic).Some? || RetainFree(entries).Some? ==>
            RetainFind(r, topic).Some?
            && r[RetainFind(r, topic).value] == RetainEntry(true, topic, Prefix(payload, MAX_PAYLOAD - 1), qos))
  {
    var r := RetainStore(entries, topic, payload, qos);
    var e := RetainEntry(true, topic, Prefix(payload, MAX_PAYLOAD - 1), qos);
    var f := RetainFind(entries, topic);
    if f.Some? {
      var k := f.value;
      assert r == entries[k := e];
      RetainFindIs(r, topic, k);
    } else if RetainFree(entries).Some? {
      var k := RetainFree(entries).value;
      assert r == entries[k := e];
      forall j | 0 <= j < k ensures !(r[j].inUse && r[j].topic == topic) {
        assert r[j] == entries[j];
      }
      RetainFindIs(r, topic, k);
    }
  }

  lemma RetainFindIs(entries: seq<RetainEntry>, topic: string, k: nat)
    requires k < |entries| && entries[k].inUse && entries[k].topic == topic
    requires forall j :: 0 <= j < k ==> !(entries[j].inUse && entries[j].topic == topic)
    ensures RetainFind(entries, topic) == Some(k)
  {
  }

  /** Storing a topic that fits does not change what any other topic
      finds. */
  lemma StoreKeepsOthers(entries: seq<RetainEntry>, topic: string, payload: string, qos: nat, other: string)
    requires |topic| < MAX_TOPIC && other != topic
    ensures var r := RetainStore(entries, topic, payload, qos);
      RetainFind(r, other) == RetainFind(entries, other)
      && (RetainFind(r, other).Some? ==> r[RetainFind(r, other).value] == entries[RetainFind(r, other).value])
  {
    var r := RetainStore(entries, topic, payload, qos);
    var g := RetainFind(entries, other);
    forall j | 0 <= j < |r| ensures (r[j].inUse && r[j].topic == other) <==> (entries[j].inUse && entries[j].topic == other) {
    }
    if g.Some? {
      RetainFindIs(r, other, g.value);
    }
  }

  /** The retained-message table (`s_retain`), updated in place. */
  class RetainTable {
    var entries: seq<RetainEntry>

    ghost predicate Valid() reads this { |entries| == RETAIN_MAX }

    constructor ()
      ensures Valid() && entries == seq(RETAIN_MAX, _ => EmptyRetain)
    {
      entries := seq(RETAIN_MAX, _ => EmptyRetain);
    }

    /** `retain_get`: the loop over the table. */
    method Get(topic: string) returns (r: Option<nat>)
      ensures r == RetainFind(entries, topic)
    {
      var i := 0;
      while i < |entries|
        invariant i <= |entries|
        invariant RetainFind(entries, topic, i) == RetainFind(entries, topic)
      {
        if entries[i].inUse && entries[i].topic == topic {
          return Some(i);
        }
        i := i + 1;
      }
      return None;
    }

    /** `retain_store`. */
    method Store(topic: string, payload: string, qos: nat)
      requires Valid()
      modifies this
      ensures Valid() && entries == RetainStore(old(entries), topic, payload, qos)
    {
      var slot := Get(topic);
      if slot.None? {
        var i := 0;
        while i < |entries|
          invariant i <= |entries|
          invariant RetainFree(entries, i) == RetainFree(entries)
        {
          if !entries[i].inUse {
            slot := Some(i);
            break;
          }
          i := i + 1;
        }
      }
      if slot.None? {
        return;
      }
      var len := if |payload| <= MAX_PAYLOAD - 1 then |payload| else MAX_PAYLOAD - 1;
      var k := slot.value;
      entries := entries[k := RetainEntry(true, Prefix(topic, MAX_TOPIC - 1), payload[..len], qos)];
    }
  }

  // ------------------------------------------------------------ subscribe

  /** A subscription of a session: the filter and the granted QoS. */
  datatype Subscription = Subscription(filter: string, qos: nat)

  /** What `handle_subscribe` answers: a SUBACK with the packet id and one
      return code per filter, a refusal (-1, no SUBACK), or, as written, a
      read of the requested-QoS byte past the end of the packet. */
  datatype SubackOutcome = Suback(pid: nat, granted: seq<byte>) | Refused | ReadsPastEnd

  /** The grant for one requested filter: 0x80 when the ACL denies it or
      the session already holds 8 subscriptions; otherwise the requested
      QoS capped at 1, and the subscription is added. */
  function Grant(subs: seq<Subscription>, client: string, filter: string, rqos: byte): (r: (seq<Subscription>, byte))
    ensures r.1 == SUBACK_FAILURE <==> (!AclAllows(client, filter, false) || |subs| >= MAX_SUBS)
    ensures r.1 == SUBACK_FAILURE ==> r.0 == subs
    ensures r.1 != SUBACK_FAILURE ==> (r.1 as nat == Min(rqos as nat, 1) && r.0 == subs + [Subscription(filter, r.1 as nat)])
  {
    if !AclAllows(client, filter, false) then (subs, SUBACK_FAILURE)
    else if |subs| < MAX_SUBS then
      var g: byte := if rqos > 1 then 1 else rqos;
      (subs + [Subscription(filter, g as nat)], g)
    else (subs, SUBACK_FAILURE)
  }

  /** The loop of `handle_subscribe` from offset `off`, with the return
      codes so far. With `guarded` false it is the code as written, which
      reads the QoS byte without checking that it is inside the packet;
      with `guarded` true that read is refused instead. The new
      subscriptions (added even when a later filter is malformed) and the
      answer. */
  function SubscribeFrom(subs: seq<Subscription>, client: string, buf: seq<byte>, pid: nat,
                         off: nat, granted: seq<byte>, guarded: bool): (seq<Subscription>, SubackOutcome)
    requires off <= |buf|
    decreases |buf| - off
  {
    if !(off + 3 <= |buf| && |granted| < MAX_SUBS) then (subs, Suback(pid, granted))
    else match ParseUtf8Str(buf, off, MAX_TOPIC)
      case None => (subs, Refused)
      case Some((filter, o)) =>
        if o >= |buf| then (subs, if guarded then Refused else ReadsPastEnd)
        else
          var (subs', g) := Grant(subs, client, filter, buf[o]);
          SubscribeFrom(subs', client, buf, pid, o + 1, granted + [g], guarded)
  }

  /** `handle_subscribe` on the packet body after the fixed header. */
  function Subscribe(subs: seq<Subscription>, client: string, buf: seq<byte>, guarded: bool): (seq<Subscription>, SubackOutcome) {
    if |buf| < 2 then (subs, Refused)
    else SubscribeFrom(subs, client, buf, buf[0] as nat * 256 + buf[1] as nat, 2, [], guarded)
  }

  /** A SUBSCRIBE whose last filter ends exactly at the end of the packet
      makes the code as written read the QoS byte past the end; with the
      bounds check the packet is refused. */
  lemma QosReadPastEnd()
    ensures Subscribe([], "webui", [0, 1, 0, 1, 'a' as int as byte], false).1 == ReadsPastEnd
    ensures Subscribe([], "webui", [0, 1, 0, 1, 'a' as int as byte], true).1 == Refused
  {
    var buf: seq<byte> := [0, 1, 0, 1, 'a' as int as byte];
    assert ParseUtf8Str(buf, 2, MAX_TOPIC) == Some((Chars(buf[4..5]), 5));
  }

  /** Wherever the code as written does not read past the packet, the
      bounds check changes nothing. */
  lemma {:induction false} GuardChangesOnlyOverrun(subs: seq<Subscription>, client: string, buf: seq<byte>, pid: nat,
                                                   off: nat, granted: seq<byte>)
    requires off <= |buf|
    ensures var w := SubscribeFrom(subs, client, buf, pid, off, granted, false);
      w.1 != ReadsPastEnd ==> w == SubscribeFrom(subs, client, buf, pid, off, granted, true)
    decreases |buf| - off
  {
    if off + 3 <= |buf| && |granted| < MAX_SUBS {
      match ParseUtf8Str(buf, off, MAX_TOPIC)
      case None =>
      case Some((filter, o)) =>
        if o < |buf| {
          var (subs', g) := Grant(subs, client, filter, buf[o]);
          GuardChangesOnlyOverrun(subs', client, buf, pid, o + 1, granted + [g]);
        }
    }
  }

  /** A session never holds more than 8 subscriptions and only gains
      some; a SUBACK answers with the packet id and at most 8 return codes,
      each 0, 1 or 0x80. */
  lemma {:induction false} SubscribeBounds(subs: seq<Subscription>, client: string, buf: seq<byte>, pid: nat,
                                           off: nat, granted: seq<byte>, guarded: bool)
    requires off <= |buf| && |subs| <= MAX_SUBS && |granted| <= MAX_SUBS
    requires forall k :: 0 <= k < |granted| ==> granted[k] in {0, 1, SUBACK_FAILURE}
    ensures var (s, out) := SubscribeFrom(subs, client, buf, pid, off, granted, guarded);
      |subs| <= |s| <= MAX_SUBS && s[..|subs|] == subs
      && (out.Suback? ==> (out.pid == pid && |granted| <= |out.granted| <= MAX_SUBS
        && forall k :: 0 <= k < |out.granted| ==> out.granted[k] in {0, 1, SUBACK_FAILURE}))
    decreases |buf| - off
  {
    if off + 3 <= |buf| && |granted| < MAX_SUBS {
      match ParseUtf8Str(buf, off, MAX_TOPIC)
      case None =>
      case Some((filter, o)) =>
        if o < |buf| {
          var (subs', g) := Grant(subs, client, filter, buf[o]);
          SubscribeBounds(subs', client, buf, pid, o + 1, granted + [g], guarded);
          var (s, out) := SubscribeFrom(subs', client, buf, pid, o + 1, granted + [g], guarded);
          assert s[..|subs|] == s[..|subs'|][..|subs|];
        }
    }
  }

  /** A client session's subscription table, updated in place by
      `handle_subscribe`. */
  class Session {
    const client: string
    var subs: seq<Subscription>

    constructor (clientId: string)
      ensures client == clientId && subs == []
    {
      client := clientId;
      subs := [];
    }

    /** `handle_subscribe`, with the QoS byte read only inside the packet. */
    method HandleSubscribe(buf: seq<byte>) returns (out: SubackOutcome)
      modifies this
      ensures (subs, out) == Subscribe(old(subs), client, buf, true)
    {
      if |buf| < 2 {
        return Refused;
      }
      var pid := buf[0] as nat * 256 + buf[1] as nat;
      var off := 2;
      var granted: seq<byte> := [];
      while off + 3 <= |buf| && |granted| < MAX_SUBS
        invariant 2 <= off <= |buf|
        invariant SubscribeFrom(subs, client, buf, pid, off, granted, true) == Subscribe(old(subs), client, buf, true)
        decreases |buf| - off
      {
        var parsed := ParseUtf8Str(buf, off, MAX_TOPIC);
        if parsed.None? {
          return Refused;
        }
        var (filter, o) := parsed.value;
        if o >= |buf| {
          return Refused;
        }
        var rqos := buf[o];
        ghost var grant := Grant(subs, client, filter, rqos);
        assert SubscribeFrom(subs, client, buf, pid, off, granted, true)
            == SubscribeFrom(grant.0, client, buf, pid, o + 1, granted + [grant.1], true);
        off := o + 1;
        var allowed := AclCheck(client, filter, false);
        if !allowed {
          granted := granted + [SUBACK_FAILURE];
          continue;
        }
        if |subs| < MAX_SUBS {
          var g: byte := if rqos > 1 then 1 else rqos;
          subs := subs + [Subscription(filter, g as nat)];
          granted := granted + [g];
        } else {
          granted := granted + [SUBACK_FAILURE];
        }
      }
      return Suback(pid, granted);
    }
  }
}
