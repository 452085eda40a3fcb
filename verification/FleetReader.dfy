/** Connecting a server to its peers: the checked keys, the managed lines made of them, and the files written. */
module FleetReader {
  import opened Common
  import opened Text
  import opened ManagedKeys

  type Peer = string

  /** The peers, in the order in which names sort. */
  const PEERS: seq<Peer> := ["app3", "app4", "app5"]

  function Address(peer: Peer): string {
    if peer == "app3" then "135.125.67.39" else if peer == "app4" then "51.255.69.154" else "217.182.134.72"
  }

  const COMMAND := "/usr/bin/sudo -n " + "/usr/bin/python3 -I " + "/opt/pockethost-web/" + "platform_fleet_reader.py" + " serve"

  datatype Item = Item(key: Peer, publicKey: string, hostKey: string)

  datatype Keys = Keys(login: string, host: string)

  /** What the installer finds on its server: whether the release manifest has the host name of a peer, which
      texts decode to an Ed25519 key, and which private keys it holds. */
  datatype Facts = Facts(itself: Peer -> bool, genuine: string -> bool, held: Peer -> bool)

  predicate IsBase64(c: char) {
    'A' <= c <= 'Z' || 'a' <= c <= 'z' || IsDigit(c) || c == '+' || c == '/' || c == '='
  }

  /** The pieces between runs of white space, as `str.split()` gives them. */
  function Words(s: string): seq<string> {
    if s == "" then []
    else if IsSpace(s[0]) then Words(s[1..])
    else if |s| == 1 || IsSpace(s[1]) then [[s[0]]] + Words(s[1..])
    else
      var rest := Words(s[1..]);
      if rest == [] then [[s[0]]] else [[s[0]] + rest[0]] + rest[1..]
  }

  function PublicKey(value: string, facts: Facts): Option<string> {
    var parts := Words(value);
    if |value| > 300 || '\n' in value || '\r' in value then None
    else if !(2 <= |parts| <= 3) || parts[0] != "ssh-ed25519" then None
    else if !(forall i :: 0 <= i < |parts[1]| ==> IsBase64(parts[1][i])) || !facts.genuine(parts[1]) then None
    else Some("ssh-ed25519 " + parts[1])
  }

  /** The items checked from the left: the first fault decides. */
  function Collected(name: Peer, items: seq<Item>, facts: Facts): Result<map<Peer, Keys>, Error> {
    if items == [] then Ok(map[])
    else
      var before := Collected(name, items[..|items| - 1], facts);
      var item := items[|items| - 1];
      if before.Err? then before
      else if item.key !in PEERS || item.key == name || item.key in before.value then Err(BadPeer)
      else
        var login, host := PublicKey(item.publicKey, facts), PublicKey(item.hostKey, facts);
        if login.None? || host.None? || !facts.held(item.key) then Err(BadKey)
        else Ok(before.value[item.key := Keys(login.value, host.value)])
  }

  function KeyLine(peer: Peer, key: string, name: Peer): string {
    "from=\"" + Address(peer) + "\",restrict,command=\"" + COMMAND + "\" " + key + " kolab-fleet:" + peer + ":" + name
  }

  function Body(clean: map<Peer, Keys>, name: Peer, peers: seq<Peer>): seq<string> {
    if peers == [] then []
    else
      var peer := peers[|peers| - 1];
      Body(clean, name, peers[..|peers| - 1]) + if peer in clean then [KeyLine(peer, clean[peer].login, name)] else []
  }

  function KnownHosts(clean: map<Peer, Keys>, peers: seq<Peer>): string {
    if peers == [] then ""
    else
      var peer := peers[|peers| - 1];
      KnownHosts(clean, peers[..|peers| - 1]) + if peer in clean then Address(peer) + " " + clean[peer].host + "\n" else ""
  }

  function Present(clean: map<Peer, Keys>, peers: seq<Peer>): seq<Peer> {
    if peers == [] then []
    else
      var peer := peers[|peers| - 1];
      Present(clean, peers[..|peers| - 1]) + if peer in clean then [peer] else []
  }

  /** The three files written by a connection; an absent key file reads as empty. */
  datatype Files = Files(authorized: string, knownHosts: string, config: Config)

  datatype Config = Config(self: Peer, peers: seq<Peer>)

  /** A key file of more bytes is not read. */
  const LARGEST := 65536

  /** The bytes of a character in UTF-8. */
  function Width(c: char): nat {
    if c < '\U{80}' then 1 else if c < '\U{800}' then 2 else if c < '\U{10000}' then 3 else 4
  }

  function Size(text: string): nat {
    if text == "" then 0 else Size(text[..|text| - 1]) + Width(text[|text| - 1])
  }

  function Connected(files: Files, name: Peer, items: seq<Item>, facts: Facts): Result<Files, Error> {
    if name !in PEERS then Err(BadPeer)
    else if !facts.itself(name) then Err(BadIdentity)
    else if |items| > 2 then Err(BadPeer)
    else
      var clean := Collected(name, items, facts);
      if clean.Err? then Err(clean.error)
      else if Size(files.authorized) > LARGEST then Err(TooLarge)
      else
        var authorized := Rewritten(files.authorized, Body(clean.value, name, PEERS));
        if authorized.Err? then Err(authorized.error)
        else Ok(Files(authorized.value, KnownHosts(clean.value, PEERS), Config(name, Present(clean.value, PEERS))))
  }

  /** The reader account's files on one server. */
  class Reader {
    var files: Files

    constructor (files: Files)
      ensures this.files == files
    {
      this.files := files;
    }

    method Connect(name: Peer, items: seq<Item>, facts: Facts) returns (result: Option<Error>)
      modifies this
      ensures Connected(old(files), name, items, facts) == if result.None? then Ok(files) else Err(result.value)
      ensures result.Some? ==> files == old(files)
    {
      hide Count, StripRight, StripNewlines, PublicKey, KeyLine, Address, Size, Blank, Cut, Joined;
      if name !in PEERS {
        return Some(BadPeer);
      }
      if !facts.itself(name) {
        return Some(BadIdentity);
      }
      if |items| > 2 {
        return Some(BadPeer);
      }
      var clean: map<Peer, Keys> := map[];
      for n := 0 to |items|
        invariant Collected(name, items[..n], facts) == Ok(clean)
      {
        assert items[..n + 1][..n] == items[..n];
        var item := items[n];
        if item.key !in PEERS || item.key == name || item.key in clean {
          FaultDecides(name, items, n + 1, facts);
          return Some(BadPeer);
        }
        var login, host := PublicKey(item.publicKey, facts), PublicKey(item.hostKey, facts);
        if login.None? || host.None? || !facts.held(item.key) {
          FaultDecides(name, items, n + 1, facts);
          return Some(BadKey);
        }
        clean := clean[item.key := Keys(login.value, host.value)];
      }
      assert items[..|items|] == items;
      var lines := [START];
      var peers: seq<Peer> := [];
      var hosts := "";
      for n := 0 to |PEERS|
        invariant lines == [START] + Body(clean, name, PEERS[..n])
        invariant peers == Present(clean, PEERS[..n]) && hosts == KnownHosts(clean, PEERS[..n])
      {
        var peer := PEERS[n];
        assert PEERS[..n + 1][..n] == PEERS[..n];
        if peer in clean {
          lines := lines + [KeyLine(peer, clean[peer].login, name)];
          peers := peers + [peer];
          hosts := hosts + (Address(peer) + " " + clean[peer].host + "\n");
        }
      }
      assert PEERS[..|PEERS|] == PEERS;
      lines := lines + [END];
      var existing := files.authorized;
      if Size(existing) > LARGEST {
        return Some(TooLarge);
      }
      if Count(existing, START) != Count(existing, END) || Count(existing, START) > 1 {
        return Some(BadBlock);
      }
      var first := Cut(existing, START);
      if first.Some? {
        var second := Cut(first.value.1, END);
        if second.None? {
          return Some(BadBlock);
        }
        existing := StripRight(first.value.0) + "\n" + StripNewlines(second.value.1);
      }
      files := Files(StripRight(existing) + (if Blank(existing) then "" else "\n") + Joined(lines) + "\n", hosts, Config(name, peers));
      result := None;
    }
  }

  lemma {:induction false} FaultDecides(name: Peer, items: seq<Item>, n: nat, facts: Facts)
    requires n <= |items| && Collected(name, items[..n], facts).Err?
    ensures Collected(name, items, facts) == Collected(name, items[..n], facts)
    decreases |items|
  {
    hide PublicKey;
    if n == |items| {
      assert items[..n] == items;
    } else {
      var front := items[..|items| - 1];
      assert front[..n] == items[..n];
      FaultDecides(name, front, n, facts);
    }
  }

  // ---- What a key looks like ----

  /** A piece of text without white space. */
  predicate Solid(s: string) {
    forall i :: 0 <= i < |s| ==> !IsSpace(s[i])
  }

  lemma {:induction false} WordsGap(gap: string, s: string)
    requires Blank(gap)
    ensures Words(gap + s) == Words(s)
  {
    if gap == "" {
      assert gap + s == s;
    } else {
      WordsGap(gap[1..], s);
      assert (gap + s)[1..] == gap[1..] + s;
    }
  }

  lemma {:induction false} WordsWord(word: string, rest: string)
    requires word != "" && Solid(word) && (rest == "" || IsSpace(rest[0]))
    ensures Words(word + rest) == [word] + Words(rest)
  {
    var s := word + rest;
    assert s[0] == word[0] && s[1..] == word[1..] + rest;
    if |word| == 1 {
      assert word[1..] + rest == rest && [s[0]] == word;
    } else {
      WordsWord(word[1..], rest);
      assert s[1] == word[1];
      assert [word[0]] + word[1..] == word;
      assert ([word[1..]] + Words(rest))[1..] == Words(rest);
    }
  }

  /** The first word of a text, with what is before and after it. */
  lemma {:induction false} WordsHead(s: string) returns (gap: string, word: string, rest: string)
    ensures s == gap + word + rest && Blank(gap) && Solid(word) && (rest == "" || IsSpace(rest[0]))
    ensures word == "" ==> rest == "" && Words(s) == []
    ensures word != "" ==> Words(s) == [word] + Words(rest)
  {
    hide Words;
    gap, word, rest := "", "", "";
    if s == "" {
      NoWords();
    } else {
      assert s == [s[0]] + s[1..];
      var g, w, r := WordsHead(s[1..]);
      if IsSpace(s[0]) {
        gap, word, rest := [s[0]] + g, w, r;
        assert s == gap + word + rest;
        WordsGap([s[0]], s[1..]);
      } else if g != "" || w == "" {
        word, rest := [s[0]], s[1..];
        assert g != "" ==> rest[0] == g[0];
        WordsWord(word, rest);
      } else {
        word, rest := [s[0]] + w, r;
        assert s == word + rest;
        WordsWord(word, rest);
      }
    }
  }

  /** The parts of a key text around the key: the name of the key type, and perhaps a comment. */
  datatype Around = Around(gap0: string, gap1: string, gap2: string, comment: string, gap3: string)

  predicate KeyText(value: string, key: string, t: Around) {
    && value == t.gap0 + "ssh-ed25519" + t.gap1 + key + t.gap2 + t.comment + t.gap3
    && Blank(t.gap0) && Blank(t.gap1) && Blank(t.gap2) && Blank(t.gap3)
    && t.gap1 != "" && key != "" && Solid(key) && Solid(t.comment) && (t.comment != "" ==> t.gap2 != "")
  }

  predicate Base64(s: string) {
    forall i :: 0 <= i < |s| ==>
      || 'A' <= s[i] <= 'Z' || 'a' <= s[i] <= 'z' || '0' <= s[i] <= '9' || s[i] == '+' || s[i] == '/' || s[i] == '='
  }

  /** The words of a key text: the type, the key, and perhaps a comment. */
  lemma KeyTextWords(value: string, key: string, t: Around)
    requires KeyText(value, key, t)
    ensures Words(value) == ["ssh-ed25519", key] + if t.comment == "" then [] else [t.comment]
  {
    hide Words;
    var d := t.comment + t.gap3;
    var c := t.gap2 + d;
    var b := t.gap1 + (key + c);
    var a := "ssh-ed25519" + b;
    assert value == t.gap0 + a;
    TypeIsSolid();
    WordsGap(t.gap0, a);
    WordsWord("ssh-ed25519", b);
    WordsGap(t.gap1, key + c);
    if t.comment == "" {
      assert c == t.gap2 + t.gap3 + "";
      WordsWord(key, c);
      WordsGap(t.gap2 + t.gap3, "");
    } else {
      WordsWord(key, c);
      WordsGap(t.gap2, d);
      WordsWord(t.comment, t.gap3);
      assert t.gap3 == t.gap3 + "";
      WordsGap(t.gap3, "");
    }
    NoWords();
  }

  lemma NoWords()
    ensures Words("") == []
  {
  }

  lemma TypeIsSolid()
    ensures Solid("ssh-ed25519")
  {
  }

  lemma WordsKeyText(value: string) returns (t: Around)
    requires 2 <= |Words(value)| <= 3 && Words(value)[0] == "ssh-ed25519"
    ensures KeyText(value, Words(value)[1], t)
  {
    hide Words;
    var g0, w0, r0 := WordsHead(value);
    var g1, w1, r1 := WordsHead(r0);
    var g2, w2, r2 := WordsHead(r1);
    var g3, w3, r3 := WordsHead(r2);
    NoWords();
    assert w0 == "ssh-ed25519" && w1 == Words(value)[1] && w3 == "";
    t := Around(g0, g1, g2, w2, if w2 == "" then "" else g3);
    assert r0 == g1 + w1 + r1 && r1 == g2 + w2 + r2;
    assert w2 == "" ==> r2 == "";
    assert w2 != "" ==> r2 == g3;
    assert value == g0 + w0 + g1 + w1 + g2 + w2 + t.gap3;
    GapBefore(r0, g1, w1, r1);
    if w2 != "" {
      GapBefore(r1, g2, w2, r2);
    }
  }

  lemma GapBefore(s: string, gap: string, word: string, rest: string)
    requires s == gap + word + rest && s != "" && IsSpace(s[0]) && Solid(word) && word != ""
    ensures gap != ""
  {
    assert s[|gap|] == word[0];
  }

  /** A key is accepted exactly when its text is of this form, has at most 300 characters and no line break, and the
      key is base64 for an Ed25519 key; what is kept is the type and the key. */
  lemma KeyIff(value: string, facts: Facts, key: string)
    ensures PublicKey(value, facts) == Some("ssh-ed25519 " + key) <==>
      && |value| <= 300 && '\n' !in value && '\r' !in value
      && (exists t :: KeyText(value, key, t)) && Base64(key) && facts.genuine(key)
  {
    hide Words;
    if PublicKey(value, facts) == Some("ssh-ed25519 " + key) {
      var k := Words(value)[1];
      assert k == ("ssh-ed25519 " + k)[12..] == ("ssh-ed25519 " + key)[12..] == key;
      var t := WordsKeyText(value);
    }
    if t :| KeyText(value, key, t) {
      KeyTextWords(value, key, t);
    }
  }

  // ---- The lines cannot imitate a marker ----

  predicate Plain(s: string) {
    '#' !in s
  }

  lemma KeysArePlain(value: string, facts: Facts)
    requires PublicKey(value, facts).Some?
    ensures Plain(PublicKey(value, facts).value)
  {
    hide Words;
    var text := Words(value)[1];
    assert forall i :: 0 <= i < |text| ==> text[i] != '#';
  }

  lemma {:induction false} CollectedArePlain(name: Peer, items: seq<Item>, facts: Facts)
    requires Collected(name, items, facts).Ok?
    ensures
      var clean := Collected(name, items, facts).value;
      forall peer :: peer in clean ==> peer in PEERS && peer != name && Plain(clean[peer].login)
  {
    hide PublicKey, Plain;
    if items != [] {
      CollectedArePlain(name, items[..|items| - 1], facts);
      KeysArePlain(items[|items| - 1].publicKey, facts);
    }
  }

  lemma PlainTexts(peer: Peer)
    requires peer in PEERS
    ensures Plain(peer) && Plain(Address(peer))
    ensures Plain("from=\"") && Plain("\",restrict,command=\"") && Plain("\" ") && Plain(" kolab-fleet:") && Plain(":")
  {
  }

  lemma PlainJoin(a: string, b: string)
    ensures Plain(a + b) <==> Plain(a) && Plain(b)
  {
    assert '#' in a ==> '#' in a + b;
    assert '#' in b ==> '#' in a + b;
  }

  lemma CommandParts()
    ensures Plain("/usr/bin/sudo -n ") && Plain("/usr/bin/python3 -I ")
    ensures Plain("/opt/pockethost-web/") && Plain("platform_fleet_reader.py") && Plain(" serve")
  {
  }

  lemma CommandIsPlain()
    ensures Plain(COMMAND)
  {
    hide Plain;
    var a, b, c := "/usr/bin/sudo -n ", "/usr/bin/python3 -I ", "/opt/pockethost-web/";
    var d, e := "platform_fleet_reader.py", " serve";
    CommandParts();
    PlainJoin(a, b);
    PlainJoin(a + b, c);
    PlainJoin(a + b + c, d);
    PlainJoin(a + b + c + d, e);
  }

  lemma KeyLineIsQuiet(peer: Peer, key: string, name: Peer)
    requires peer in PEERS && name in PEERS && Plain(key)
    ensures Plain(KeyLine(peer, key, name))
  {
    hide Plain, Address;
    PlainTexts(peer);
    PlainTexts(name);
    CommandIsPlain();
    var a := "from=\"" + Address(peer);
    var b := a + "\",restrict,command=\"";
    var c := b + COMMAND;
    var d := c + "\" ";
    var e := d + key;
    var f := e + " kolab-fleet:";
    var g := f + peer;
    PlainJoin("from=\"", Address(peer));
    PlainJoin(a, "\",restrict,command=\"");
    PlainJoin(b, COMMAND);
    PlainJoin(c, "\" ");
    PlainJoin(d, key);
    PlainJoin(e, " kolab-fleet:");
    PlainJoin(f, peer);
    PlainJoin(g, ":");
    PlainJoin(g + ":", name);
  }

  lemma {:induction false} BodyIsQuiet(clean: map<Peer, Keys>, name: Peer, peers: seq<Peer>)
    requires name in PEERS && forall peer :: peer in clean ==> peer in PEERS && Plain(clean[peer].login)
    ensures Quiet(Body(clean, name, peers))
  {
    if peers != [] {
      hide KeyLine;
      BodyIsQuiet(clean, name, peers[..|peers| - 1]);
      var peer := peers[|peers| - 1];
      if peer in clean {
        KeyLineIsQuiet(peer, clean[peer].login, name);
      }
    }
  }

  // ---- Connecting again ----

  /** After a first connection that leaves a key file of readable size, a second one leaves exactly the files it
      would have left without the first, and the same material again changes no byte.  After one that leaves a
      larger file, every further connection is refused. */
  lemma LastConnectionWins(files: Files, name: Peer, items: seq<Item>, name': Peer, items': seq<Item>, facts: Facts, facts': Facts)
    requires Connected(files, name, items, facts).Ok?
    ensures
      var once := Connected(files, name, items, facts).value;
      if Size(once.authorized) <= 65536 then
        && Connected(once, name', items', facts') == Connected(files, name', items', facts')
        && Connected(once, name, items, facts) == Ok(once)
      else Connected(once, name', items', facts').Err?
  {
    hide Collected, Body, Unmanaged, Placed, Quiet, Size;
    var clean := Collected(name, items, facts).value;
    CollectedArePlain(name, items, facts);
    BodyIsQuiet(clean, name, PEERS);
    LastRewriteWins(files.authorized, Body(clean, name, PEERS), Body(clean, name, PEERS));
    var clean' := Collected(name', items', facts');
    if clean'.Ok? {
      LastRewriteWins(files.authorized, Body(clean, name, PEERS), Body(clean'.value, name', PEERS));
    }
  }

  lemma {:induction false} SizeJoin(a: string, b: string)
    ensures Size(a + b) == Size(a) + Size(b)
  {
    if b == "" {
      assert a + b == a;
    } else {
      assert (a + b)[..|a + b| - 1] == a + b[..|b| - 1];
      SizeJoin(a, b[..|b| - 1]);
    }
  }

  lemma {:induction false} SizeOfNarrow(text: string)
    requires forall i :: 0 <= i < |text| ==> text[i] == 'x'
    ensures Size(text) == |text|
  {
    if text != "" {
      SizeOfNarrow(text[..|text| - 1]);
    }
  }

  /** A key file of the largest size that is still read becomes too large by the first connection. */
  lemma ConnectionCanBeTheLast(name: Peer, facts: Facts) returns (files: Files)
    requires name in PEERS && facts.itself(name)
    ensures Connected(files, name, [], facts).Ok?
    ensures Size(Connected(files, name, [], facts).value.authorized) > LARGEST
  {
    hide Size, StripRight, Count, Body, Joined, Blank;
    var existing := seq(LARGEST, i => 'x');
    files := Files(existing, "", Config(name, []));
    SizeOfNarrow(existing);
    CountNothing();
    CountAfterQuiet(existing, "");
    assert existing + "" == existing;
    CutNone(existing, START);
    StripRightKeeps(existing);
    var lines := Block(Body(map[], name, PEERS));
    var gap := if Blank(existing) then "" else "\n";
    var tail := gap + Joined(lines) + "\n";
    assert Placed(existing, lines) == existing + tail;
    SizeJoin(existing, tail);
    SizeJoin(gap + Joined(lines), "\n");
    OneByte();
  }

  lemma OneByte()
    ensures Size("\n") == 1
  {
    assert "\n"[..0] == "";
  }

  // ---- Who is let in ----

  predicate Sound(name: Peer, item: Item, facts: Facts) {
    && item.key in PEERS && item.key != name && facts.held(item.key)
    && PublicKey(item.publicKey, facts).Some? && PublicKey(item.hostKey, facts).Some?
  }

  predicate KeysDiffer(items: seq<Item>) {
    forall i, j :: 0 <= i < j < |items| ==> items[i].key != items[j].key
  }

  predicate AllSound(name: Peer, items: seq<Item>, facts: Facts) {
    forall i :: 0 <= i < |items| ==> Sound(name, items[i], facts)
  }

  predicate Named(items: seq<Item>, peer: Peer) {
    exists i :: 0 <= i < |items| && items[i].key == peer
  }

  /** The keys of an accepted item. */
  function KeysOf(item: Item, facts: Facts): Keys {
    Keys(PublicKey(item.publicKey, facts).GetOr(""), PublicKey(item.hostKey, facts).GetOr(""))
  }

  /** The collected keys are those of the items, and no others. */
  ghost predicate Gathers(clean: map<Peer, Keys>, items: seq<Item>, facts: Facts) {
    && (forall peer :: peer in clean <==> Named(items, peer))
    && forall i :: 0 <= i < |items| ==> items[i].key in clean && clean[items[i].key] == KeysOf(items[i], facts)
  }

  lemma NamedNext(items: seq<Item>, item: Item, peer: Peer)
    ensures Named(items + [item], peer) <==> Named(items, peer) || item.key == peer
  {
    var all := items + [item];
    if i :| 0 <= i < |items| && items[i].key == peer {
      assert all[i].key == peer;
    }
    assert all[|items|] == item;
  }

  lemma SoundNext(name: Peer, items: seq<Item>, item: Item, facts: Facts)
    ensures AllSound(name, items + [item], facts) <==> AllSound(name, items, facts) && Sound(name, item, facts)
    ensures KeysDiffer(items + [item]) <==> KeysDiffer(items) && !Named(items, item.key)
  {
    hide Sound;
    var all := items + [item];
    assert forall i :: 0 <= i < |items| ==> all[i] == items[i];
    assert all[|items|] == item;
  }

  lemma GathersNext(clean: map<Peer, Keys>, items: seq<Item>, item: Item, facts: Facts)
    requires Gathers(clean, items, facts) && !Named(items, item.key)
    ensures Gathers(clean[item.key := KeysOf(item, facts)], items + [item], facts)
  {
    hide KeysOf;
    var all := items + [item];
    forall peer
      ensures peer in clean[item.key := KeysOf(item, facts)] <==> Named(all, peer)
    {
      NamedNext(items, item, peer);
    }
    forall i | 0 <= i < |items|
      ensures items[i].key != item.key && all[i] == items[i]
    {
    }
  }

  /** Peer material is accepted exactly when every item is sound and no peer is given twice; what is collected is what was given. */
  lemma {:induction false} CollectedIff(name: Peer, items: seq<Item>, facts: Facts)
    ensures Collected(name, items, facts).Ok? <==> AllSound(name, items, facts) && KeysDiffer(items)
    ensures Collected(name, items, facts).Ok? ==> Gathers(Collected(name, items, facts).value, items, facts)
  {
    if items != [] {
      var n := |items| - 1;
      var front, item := items[..n], items[n];
      hide AllSound, KeysDiffer, Gathers, Named, PublicKey;
      CollectedIff(name, front, facts);
      assert items == front + [item];
      SoundNext(name, front, item, facts);
      var before := Collected(name, front, facts);
      if before.Ok? {
        GatheredKey(before.value, front, facts, item.key);
        if !Named(front, item.key) {
          GathersNext(before.value, front, item, facts);
        }
      }
    }
  }

  lemma GatheredKey(clean: map<Peer, Keys>, items: seq<Item>, facts: Facts, peer: Peer)
    requires Gathers(clean, items, facts)
    ensures peer in clean <==> Named(items, peer)
  {
    hide Named;
  }

  lemma {:induction false} PresentAre(clean: map<Peer, Keys>, peers: seq<Peer>)
    ensures forall peer :: peer in Present(clean, peers) <==> peer in peers && peer in clean
  {
    if peers != [] {
      PresentAre(clean, peers[..|peers| - 1]);
    }
  }

  lemma {:induction false} BodyHasLines(clean: map<Peer, Keys>, name: Peer, peers: seq<Peer>)
    ensures forall line :: line in Body(clean, name, peers) <==>
      exists peer :: peer in peers && peer in clean && line == KeyLine(peer, clean[peer].login, name)
  {
    if peers != [] {
      hide KeyLine;
      BodyHasLines(clean, name, peers[..|peers| - 1]);
      var peer := peers[|peers| - 1];
      assert forall p :: p in peers <==> p in peers[..|peers| - 1] || p == peer;
    }
  }

  /** The line that lets the peer of an item in. */
  function LineFor(item: Item, name: Peer, facts: Facts): string {
    KeyLine(item.key, KeysOf(item, facts).login, name)
  }

  function HostLine(peer: Peer, host: string): string {
    Address(peer) + " " + host
  }

  lemma {:induction false} KnownHostsLines(clean: map<Peer, Keys>, peers: seq<Peer>) returns (lines: seq<string>)
    ensures KnownHosts(clean, peers) == Ended(lines)
    ensures forall line :: line in lines <==>
      exists peer :: peer in peers && peer in clean && line == HostLine(peer, clean[peer].host)
  {
    if peers == [] {
      lines := [];
    } else {
      hide HostLine, Address;
      var n := |peers| - 1;
      var peer := peers[n];
      var before := KnownHostsLines(clean, peers[..n]);
      assert forall p :: p in peers <==> p in peers[..n] || p == peer;
      if peer in clean {
        lines := before + [HostLine(peer, clean[peer].host)];
        OneHostMore(KnownHosts(clean, peers[..n]), before, peer, clean[peer].host);
      } else {
        lines := before;
      }
    }
  }

  lemma OneHostMore(known: string, before: seq<string>, peer: Peer, host: string)
    requires known == Ended(before)
    ensures known + (Address(peer) + " " + host + "\n") == Ended(before + [HostLine(peer, host)])
  {
    hide Address;
    var line := HostLine(peer, host);
    assert (before + [line])[..|before|] == before;
    assert known + (line + "\n") == known + line + "\n";
  }

  /** After a connection the known hosts are the peers given, each with its address and the host key given for it. */
  lemma ConnectionTrusts(files: Files, name: Peer, items: seq<Item>, facts: Facts) returns (lines: seq<string>)
    requires Connected(files, name, items, facts).Ok?
    ensures Connected(files, name, items, facts).value.knownHosts == Ended(lines)
    ensures forall line :: line in lines <==>
      exists i :: 0 <= i < |items| && line == HostLine(items[i].key, KeysOf(items[i], facts).host)
  {
    hide KeyLine, PublicKey, Ended, Rewritten, KeysOf, Body, Present, HostLine, KnownHosts, Sound;
    var clean := Collected(name, items, facts).value;
    CollectedIff(name, items, facts);
    CollectedArePlain(name, items, facts);
    lines := KnownHostsLines(clean, PEERS);
    forall line
      ensures line in lines <==> exists i :: 0 <= i < |items| && line == HostLine(items[i].key, KeysOf(items[i], facts).host)
    {
      if line in lines {
        var peer :| peer in PEERS && peer in clean && line == HostLine(peer, clean[peer].host);
        var i :| 0 <= i < |items| && items[i].key == peer;
        assert line == HostLine(items[i].key, KeysOf(items[i], facts).host);
      }
      if i :| 0 <= i < |items| && line == HostLine(items[i].key, KeysOf(items[i], facts).host) {
        var peer := items[i].key;
        assert peer in PEERS && peer in clean && line == HostLine(peer, clean[peer].host);
      }
    }
  }

  /** After a connection the managed block holds the lines of exactly the peers given, each bound to that peer's address. */
  lemma ConnectionAdmits(files: Files, name: Peer, items: seq<Item>, facts: Facts) returns (body: seq<string>)
    requires Connected(files, name, items, facts).Ok?
    ensures Managed(Connected(files, name, items, facts).value.authorized) == Some("\n" + Ended(body))
    ensures forall line :: line in body <==> exists i :: 0 <= i < |items| && line == LineFor(items[i], name, facts)
    ensures forall peer :: peer in Connected(files, name, items, facts).value.config.peers <==> Named(items, peer)
  {
    hide KeyLine, PublicKey, Ended, Managed, Unmanaged, Placed, Quiet, LineFor, KeysOf, Named, Body, Present, Sound;
    var clean := Collected(name, items, facts).value;
    body := Body(clean, name, PEERS);
    CollectedIff(name, items, facts);
    CollectedArePlain(name, items, facts);
    BodyIsQuiet(clean, name, PEERS);
    RewrittenParts(files.authorized, body);
    PresentAre(clean, PEERS);
    forall line
      ensures line in body <==> exists i :: 0 <= i < |items| && line == LineFor(items[i], name, facts)
    {
      LineByItem(clean, name, items, facts, line);
    }
  }

  lemma LineByItem(clean: map<Peer, Keys>, name: Peer, items: seq<Item>, facts: Facts, line: string)
    requires Gathers(clean, items, facts) && forall peer :: peer in clean ==> peer in PEERS
    ensures line in Body(clean, name, PEERS) <==> exists i :: 0 <= i < |items| && line == LineFor(items[i], name, facts)
  {
    hide KeyLine, PublicKey, Body, KeysOf;
    BodyHasLines(clean, name, PEERS);
    if line in Body(clean, name, PEERS) {
      var peer :| peer in PEERS && peer in clean && line == KeyLine(peer, clean[peer].login, name);
      var i :| 0 <= i < |items| && items[i].key == peer;
      assert line == LineFor(items[i], name, facts);
    }
    if i :| 0 <= i < |items| && line == LineFor(items[i], name, facts) {
      var peer := items[i].key;
      assert peer in PEERS && peer in clean && line == KeyLine(peer, clean[peer].login, name);
    }
  }

  /** What one entry lets happen: a login from the address of this peer and no other, with the given key, that can
      run nothing but the reader. */
  lemma EntryOf(item: Item, name: Peer, facts: Facts)
    requires Sound(name, item, facts)
    ensures item.key == "app3" || item.key == "app4" || item.key == "app5"
    ensures
      var address := if item.key == "app3" then "135.125.67.39" else if item.key == "app4" then "51.255.69.154" else "217.182.134.72";
      && LineFor(item, name, facts)
         == "from=\"" + address + "\",restrict,command=\"" + COMMAND + "\" " + "ssh-ed25519 " + Words(item.publicKey)[1]
            + " kolab-fleet:" + item.key + ":" + name
      && HostLine(item.key, KeysOf(item, facts).host) == address + " " + "ssh-ed25519 " + Words(item.hostKey)[1]
  {
    KeyParts(item.publicKey, facts);
    KeyParts(item.hostKey, facts);
    hide PublicKey, Words;
    var key := "ssh-ed25519 " + Words(item.publicKey)[1];
    var start := "from=\"" + Address(item.key) + "\",restrict,command=\"" + COMMAND + "\" ";
    assert start + key == start + "ssh-ed25519 " + Words(item.publicKey)[1];
    var host := Address(item.key) + " ";
    assert host + ("ssh-ed25519 " + Words(item.hostKey)[1]) == host + "ssh-ed25519 " + Words(item.hostKey)[1];
  }

  lemma KeyParts(value: string, facts: Facts)
    requires PublicKey(value, facts).Some?
    ensures |Words(value)| >= 2 && PublicKey(value, facts).value == "ssh-ed25519 " + Words(value)[1]
  {
    hide Words;
  }

  // ---- When a connection is made ----

  predicate OneOfThree(name: Peer) {
    name == "app3" || name == "app4" || name == "app5"
  }

  /** A connection is made exactly for a known name on its own server, with at most two peers, all of them sound and
      different, over a key file of at most 65536 bytes with no block or one well-formed block. */
  lemma ConnectedIff(files: Files, name: Peer, items: seq<Item>, facts: Facts)
    ensures Connected(files, name, items, facts).Ok? <==>
      && OneOfThree(name) && facts.itself(name) && |items| <= 2
      && AllSound(name, items, facts) && KeysDiffer(items)
      && Size(files.authorized) <= 65536
      && Unmanaged(files.authorized).Ok?
  {
    CollectedIff(name, items, facts);
    hide Collected, AllSound, KeysDiffer, Unmanaged, Body, Present, KnownHosts, Size;
  }

  /** Otherwise the first of these decides. */
  lemma RefusedBecause(files: Files, name: Peer, items: seq<Item>, facts: Facts)
    requires Connected(files, name, items, facts).Err?
    ensures
      Connected(files, name, items, facts).error
      == if !OneOfThree(name) then BadPeer
         else if !facts.itself(name) then BadIdentity
         else if |items| > 2 then BadPeer
         else if Collected(name, items, facts).Err? then Collected(name, items, facts).error
         else if Size(files.authorized) > 65536 then TooLarge
         else BadBlock
  {
    hide Collected, Body, Present, KnownHosts, Size;
    UnmanagedError(files.authorized);
    hide Unmanaged;
  }

  lemma UnmanagedError(existing: string)
    ensures Unmanaged(existing).Err? ==> Unmanaged(existing).error == BadBlock
  {
    hide Count, StripRight, StripNewlines;
  }

  /** And of the peers the first faulty one: an unknown or repeated name, or else a bad or missing key. */
  lemma FirstFaultyPeer(name: Peer, items: seq<Item>, facts: Facts, n: nat)
    requires n < |items| && AllSound(name, items[..n], facts) && KeysDiffer(items[..n])
    requires !(AllSound(name, items[..n + 1], facts) && KeysDiffer(items[..n + 1]))
    ensures
      Collected(name, items, facts)
      == Err(if !OneOfThree(items[n].key) || items[n].key == name || Named(items[..n], items[n].key) then BadPeer else BadKey)
  {
    hide AllSound, KeysDiffer, PublicKey, Named;
    CollectedIff(name, items[..n], facts);
    CollectedIff(name, items[..n + 1], facts);
    assert items[..n + 1][..n] == items[..n];
    GatheredKey(Collected(name, items[..n], facts).value, items[..n], facts, items[n].key);
    FaultDecides(name, items, n + 1, facts);
  }

  /** How many characters of a text have at least this code. */
  function Beyond(text: string, code: int): nat {
    |set i | 0 <= i < |text| && text[i] as int >= code|
  }

  lemma BeyondNext(text: string, code: int)
    requires text != ""
    ensures Beyond(text, code) == Beyond(text[..|text| - 1], code) + if text[|text| - 1] as int >= code then 1 else 0
  {
    var n := |text| - 1;
    var front := text[..n];
    assert (set i | 0 <= i < |text| && text[i] as int >= code)
      == (set i | 0 <= i < n && front[i] as int >= code) + if text[n] as int >= code then {n} else {};
  }

  /** The size of a text is that of its UTF-8 form (section 3 of RFC 3629): one byte for each character, one more from
      U+0080, a third from U+0800, and a fourth from U+10000 on. */
  lemma {:induction false} SizeIsUtf8(text: string)
    ensures Size(text) == |text| + Beyond(text, 128) + Beyond(text, 2048) + Beyond(text, 65536)
  {
    if text != "" {
      hide Beyond;
      SizeIsUtf8(text[..|text| - 1]);
      BeyondNext(text, 128);
      BeyondNext(text, 2048);
      BeyondNext(text, 65536);
      WidthIs(text[|text| - 1]);
    }
  }

  lemma WidthIs(c: char)
    ensures Width(c) == 1 + (if c as int >= 128 then 1 else 0) + (if c as int >= 2048 then 1 else 0)
      + if c as int >= 65536 then 1 else 0
  {
  }
}
