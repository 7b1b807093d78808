/** Commands on the wire: four bytes each, and the table they index. */
module Commands {

  type byte = b: nat | b < 256

  const WORD := 0x1_0000_0000

  /** The four bytes of an unsigned 32-bit number, in the order the machine stores them. */
  function Encode(c: nat): (bytes: seq<byte>)
    requires c < WORD
    ensures |bytes| == 4
  {
    [c % 256, c / 256 % 256, c / 65536 % 256, c / 16777216]
  }

  function Decode(bytes: seq<byte>): (c: nat)
    requires |bytes| == 4
    ensures c < WORD
  {
    var b0: nat, b1: nat, b2: nat, b3: nat := bytes[0], bytes[1], bytes[2], bytes[3];
    b0 + 256 * b1 + 65536 * b2 + 16777216 * b3
  }

  lemma DecodeEncode(c: nat)
    requires c < WORD
    ensures Decode(Encode(c)) == c
  {
    assert c == 256 * (c / 256) + c % 256;
    assert c / 256 == 256 * (c / 65536) + c / 256 % 256;
    assert c / 65536 == 256 * (c / 16777216) + c / 65536 % 256;
  }

  /** A uint32_t returned as an int. */
  function AsInt(c: nat): int
    requires c < WORD
  {
    if c < 0x8000_0000 then c else c - WORD
  }

  predicate AllWords(cs: seq<nat>) {
    forall k :: 0 <= k < |cs| ==> cs[k] < WORD
  }

  function EncodeAll(cs: seq<nat>): (bytes: seq<byte>)
    requires AllWords(cs)
    ensures |bytes| == 4 * |cs|
  {
    if cs == [] then [] else Encode(cs[0]) + EncodeAll(cs[1..])
  }

  lemma {:induction false} EncodeAllAppend(cs: seq<nat>, c: nat)
    requires AllWords(cs) && c < WORD
    ensures EncodeAll(cs + [c]) == EncodeAll(cs) + Encode(c)
  {
    if cs == [] {
      assert EncodeAll([c]) == Encode(c) + EncodeAll([]);
    } else {
      assert (cs + [c])[1..] == cs[1..] + [c];
      EncodeAllAppend(cs[1..], c);
    }
  }

  /** Reading one word off the front takes exactly the oldest command. */
  lemma TakeFront(cs: seq<nat>)
    requires AllWords(cs) && cs != []
    ensures var bytes := EncodeAll(cs);
      |bytes| >= 4 && Decode(bytes[..4]) == cs[0] && bytes[4..] == EncodeAll(cs[1..])
  {
    DecodeEncode(cs[0]);
    assert EncodeAll(cs)[..4] == Encode(cs[0]);
  }

  datatype Handler = ReadMySQL | ExecuteUrl | Cal | Save

  const HANDLERS := [ReadMySQL, ExecuteUrl, Cal, Save]

  function Describe(h: Handler): string {
    match h
    case ReadMySQL => "readMySQL: 访问数据库的任务"
    case ExecuteUrl => "execuleUrl: 执行Url解析"
    case Cal => "cal: 执行加密任务"
    case Save => "save: 执行数据持久化任务"
  }

  /** The global tables that load() fills. */
  class Tasks {
    var callbacks: seq<Handler>
    var desc: map<nat, string>

    constructor ()
      ensures callbacks == [] && desc == map[]
    {
      callbacks, desc := [], map[];
    }

    method Add(name: string, handler: Handler)
      modifies this
      ensures callbacks == old(callbacks) + [handler]
      ensures desc == if |old(callbacks)| in old(desc) then old(desc) else old(desc)[|old(callbacks)| := name]
    {
      if |callbacks| !in desc {           // insert() keeps an entry that is already there
        desc := desc[|callbacks| := name];
      }
      callbacks := callbacks + [handler];
    }

    /** Four more commands, each with its handler and the description that names it; what was
        loaded before stays as it is. */
    method Load()
      modifies this
      ensures callbacks == old(callbacks) + HANDLERS
      ensures forall k :: k in old(desc) ==> k in desc && desc[k] == old(desc)[k]
      ensures forall k: nat :: k in desc <==> k in old(desc) || |old(callbacks)| <= k < |callbacks|
      ensures forall k: nat :: k in desc && k !in old(desc) ==> desc[k] == Describe(callbacks[k])
    {
      Add("readMySQL: 访问数据库的任务", ReadMySQL);
      Add("execuleUrl: 执行Url解析", ExecuteUrl);
      Add("cal: 执行加密任务", Cal);
      Add("save: 执行数据持久化任务", Save);
    }

    function HandlerSize(): nat
      reads this
    {
      |callbacks|
    }
  }
}
