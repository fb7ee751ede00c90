/** The ROM file system image (mkromfs.py, --binary): a directory tree laid out for a given address. */
module Romfs {

  type Bytes = seq<int>

  datatype Node = File(name: Bytes, data: Bytes) | Folder(name: Bytes, children: seq<Node>)

  const DIRENT: int := 16
  const WORD: int := 0x1_0000_0000

  function Zeros(n: nat): (r: Bytes)
    ensures |r| == n
  {
    seq(n, _ => 0)
  }

  // ----- writing

  /** bin_name: with one to four zeros behind it. */
  function BinName(name: Bytes): (r: Bytes)
    ensures |r| % 4 == 0 && name + [0] <= r && |r| <= |name| + 4
  {
    name + Zeros(4 - |name| % 4)
  }

  function Padded(data: Bytes): (r: Bytes)
    ensures |r| % 4 == 0 && data <= r
  {
    if |data| % 4 == 0 then data else data + Zeros(4 - |data| % 4)
  }

  /** An unsigned 32-bit number, lowest byte first. */
  function Word(x: int): (r: Bytes)
    ensures |r| == 4
  {
    [x % 256, x / 256 % 256, x / 65536 % 256, x / 16777216 % 256]
  }

  function Type(c: Node): int { if c.File? then 0 else 1 }
  function EntrySize(c: Node): int { if c.File? then |c.data| else |c.children| }

  function Dirent(c: Node, nameAddr: int, dataAddr: int): (r: Bytes)
    ensures |r| == DIRENT
  {
    Word(Type(c)) + Word(nameAddr) + Word(dataAddr) + Word(EntrySize(c))
  }

  /** bin_data at address `base`: for a folder its entries, then the names and data they point to. */
  function BinData(c: Node, base: int): Bytes
    decreases c
  {
    match c
    case File(_, data) => data
    case Folder(_, children) =>
      var p := base + DIRENT * |children|;
      Dirents(children, p) + Payload(children, p)
  }

  /** The entries of `cs`, whose names and data start at `v`. */
  function Dirents(cs: seq<Node>, v: int): Bytes
    decreases cs
  {
    if cs == [] then []
    else
      var d := v + |BinName(cs[0].name)|;
      Dirent(cs[0], v, d) + Dirents(cs[1..], d + |Padded(BinData(cs[0], d))|)
  }

  function Payload(cs: seq<Node>, v: int): Bytes
    decreases cs
  {
    if cs == [] then []
    else
      var d := v + |BinName(cs[0].name)|;
      var data := Padded(BinData(cs[0], d));
      BinName(cs[0].name) + data + Payload(cs[1..], d + |data|)
  }

  /** Numbers that can be packed; struct raises an error for others. */
  predicate Packs(x: int) { 0 <= x < WORD }

  predicate Fits(c: Node, base: int)
    decreases c
  {
    c.Folder? ==> AllFit(c.children, base + DIRENT * |c.children|)
  }

  predicate AllFit(cs: seq<Node>, v: int)
    decreases cs
  {
    cs == [] ||
    var d := v + |BinName(cs[0].name)|;
    && Packs(v) && Packs(d) && Packs(EntrySize(cs[0]))
    && Fits(cs[0], d) && AllFit(cs[1..], d + |Padded(BinData(cs[0], d))|)
  }

  datatype Result = Ok(image: Bytes) | StructError

  const ROOT: Bytes := ['/' as int]

  /** get_bin_data: a root entry, its name, and the tree. */
  function Image(tree: Node, base: int): Result
    requires tree.Folder?
  {
    var n := base + DIRENT;
    var d := n + |BinName(ROOT)|;
    if Packs(n) && Packs(d) && Packs(EntrySize(tree)) && Fits(tree, d) then
      Ok(Dirent(tree, n, d) + BinName(ROOT) + BinData(tree, d))
    else StructError
  }

  // ----- the layout does not depend on the address

  /** Length of the data of a node, counted without addresses. */
  function Len(c: Node): nat
    decreases c
  {
    match c
    case File(_, data) => |data|
    case Folder(_, children) => DIRENT * |children| + LenAll(children)
  }

  function LenAll(cs: seq<Node>): nat
    decreases cs
  {
    if cs == [] then 0 else |BinName(cs[0].name)| + RoundTo4(Len(cs[0])) + LenAll(cs[1..])
  }

  function RoundTo4(n: nat): nat { if n % 4 == 0 then n else n + 4 - n % 4 }

  lemma {:induction false} LengthOf(c: Node, base: int)
    ensures |BinData(c, base)| == Len(c)
    decreases c
  {
    match c
    case File(_, data) =>
    case Folder(_, children) => LengthOfAll(children, base + DIRENT * |children|);
  }

  lemma {:induction false} LengthOfAll(cs: seq<Node>, v: int)
    ensures |Dirents(cs, v)| == DIRENT * |cs| && |Payload(cs, v)| == LenAll(cs)
    decreases cs
  {
    hide Dirent, BinName, Padded, BinData, Len, RoundTo4;
    if cs != [] {
      var d := v + |BinName(cs[0].name)|;
      LengthOf(cs[0], d);
      PaddedLength(BinData(cs[0], d));
      LengthOfAll(cs[1..], d + |Padded(BinData(cs[0], d))|);
    }
  }

  lemma PaddedLength(data: Bytes)
    ensures |Padded(data)| == RoundTo4(|data|)
  {
  }

  /** The length of an image is the same at every address. */
  lemma LengthIndependentOfBase(c: Node, base: int, base': int)
    ensures |BinData(c, base)| == |BinData(c, base')|
  {
    LengthOf(c, base);
    LengthOf(c, base');
  }

  // ----- what can be packed

  /** How far behind the start of a node's data the last address lies that is written in it; 0 if there is none. */
  function Last(c: Node): (r: nat)
    ensures c.Folder? ==> |c.children| <= r
    decreases c
  {
    if c.File? || c.children == [] then 0 else DIRENT * |c.children| + LastAll(c.children)
  }

  function LastAll(cs: seq<Node>): nat
    requires cs != []
    decreases cs
  {
    |BinName(cs[0].name)| + if |cs| == 1 then Last(cs[0]) else RoundTo4(Len(cs[0])) + LastAll(cs[1..])
  }

  predicate FilesPack(c: Node)
    decreases c
  {
    match c
    case File(_, data) => |data| < WORD
    case Folder(_, children) => AllFilesPack(children)
  }

  predicate AllFilesPack(cs: seq<Node>)
    decreases cs
  {
    cs == [] || (FilesPack(cs[0]) && AllFilesPack(cs[1..]))
  }

  lemma {:induction false} LastInside(c: Node)
    ensures Last(c) <= Len(c)
    decreases c
  {
    if c.Folder? && c.children != [] { LastInsideAll(c.children); }
  }

  lemma {:induction false} LastInsideAll(cs: seq<Node>)
    requires cs != []
    ensures LastAll(cs) <= LenAll(cs)
    decreases cs
  {
    hide BinName;
    LastInside(cs[0]);
    if |cs| > 1 { LastInsideAll(cs[1..]); }
  }

  /** The data of a node can be written exactly if the last address in it and the sizes of its files can. */
  lemma {:induction false} FitsIff(c: Node, base: int)
    requires 0 <= base < WORD
    ensures Fits(c, base) && Packs(EntrySize(c)) <==> base + Last(c) < WORD && FilesPack(c)
    decreases c
  {
    if c.Folder? { AllFitIff(c.children, base + DIRENT * |c.children|); }
  }

  lemma {:induction false} AllFitIff(cs: seq<Node>, v: int)
    requires 0 <= v
    ensures AllFit(cs, v) <==> (cs != [] ==> v + LastAll(cs) < WORD) && AllFilesPack(cs)
    decreases cs
  {
    hide BinName, Padded, BinData, FilesPack, RoundTo4, Fits, Len, Last;
    if cs != [] {
      var d := v + |BinName(cs[0].name)|;
      var next := d + RoundTo4(Len(cs[0]));
      LengthOf(cs[0], d);
      PaddedLength(BinData(cs[0], d));
      LastInside(cs[0]);
      RoundsUp(Len(cs[0]));
      AllFitIff(cs[1..], next);
      if d < WORD { FitsIff(cs[0], d); }
    }
  }

  lemma RoundsUp(n: nat)
    ensures n <= RoundTo4(n)
  {
  }

  // ----- reading

  /** The bytes at an address of an image loaded at `base`. */
  ghost predicate Holds(mem: Bytes, base: int, a: int, bytes: Bytes) {
    base <= a && a + |bytes| <= base + |mem| && mem[a - base..a - base + |bytes|] == bytes
  }

  function Slice(mem: Bytes, base: int, a: int, n: int): Bytes {
    if base <= a && 0 <= n && a + n <= base + |mem| then mem[a - base..a - base + n] else []
  }

  function ReadWord(mem: Bytes, base: int, a: int): int {
    var s := Slice(mem, base, a, 4);
    if |s| == 4 then s[0] + 256 * s[1] + 65536 * s[2] + 16777216 * s[3] else 0
  }

  /** Bytes up to the first zero. */
  function CString(s: Bytes): Bytes { if s == [] || s[0] == 0 then [] else [s[0]] + CString(s[1..]) }

  function ReadName(mem: Bytes, base: int, a: int): Bytes {
    if base <= a <= base + |mem| then CString(mem[a - base..]) else []
  }

  /** Follow the entry at address d, at most `fuel` levels down. */
  function ReadNode(mem: Bytes, base: int, d: int, fuel: nat): Node
    decreases fuel, 0
  {
    if fuel == 0 then File([], [])
    else
      var name := ReadName(mem, base, ReadWord(mem, base, d + 4));
      var data, size := ReadWord(mem, base, d + 8), ReadWord(mem, base, d + 12);
      if ReadWord(mem, base, d) == 0 then File(name, Slice(mem, base, data, size))
      else Folder(name, if size < 0 then [] else ReadNodes(mem, base, data, size, fuel - 1))
  }

  function ReadNodes(mem: Bytes, base: int, d: int, n: nat, fuel: nat): seq<Node>
    decreases fuel, n
  {
    if n == 0 then [] else [ReadNode(mem, base, d, fuel)] + ReadNodes(mem, base, d + DIRENT, n - 1, fuel)
  }

  function Height(c: Node): nat
    decreases c
  {
    if c.File? then 1 else 1 + HeightAll(c.children)
  }

  function HeightAll(cs: seq<Node>): nat
    decreases cs
  {
    if cs == [] then 0 else if Height(cs[0]) > HeightAll(cs[1..]) then Height(cs[0]) else HeightAll(cs[1..])
  }

  /** File names have no zero byte in them. */
  predicate Named(c: Node)
    decreases c
  {
    0 !in c.name && (c.Folder? ==> AllNamed(c.children))
  }

  predicate AllNamed(cs: seq<Node>)
    decreases cs
  {
    cs == [] || (Named(cs[0]) && AllNamed(cs[1..]))
  }

  // ----- where everything lies

  /** The entry at d is that of node c: its addresses are aligned and lead to the name and the data. */
  ghost predicate Placed(mem: Bytes, base: int, d: int, c: Node)
    decreases c
  {
    var na, da := ReadWord(mem, base, d + 4), ReadWord(mem, base, d + 8);
    && ReadWord(mem, base, d) == Type(c) && ReadWord(mem, base, d + 12) == EntrySize(c)
    && (base % 4 == 0 ==> na % 4 == 0 && da % 4 == 0)
    && Holds(mem, base, na, c.name + [0])
    && match c
       case File(_, data) => Holds(mem, base, da, data)
       case Folder(_, children) => AllPlaced(mem, base, da, children)
  }

  ghost predicate AllPlaced(mem: Bytes, base: int, d: int, cs: seq<Node>)
    decreases cs
  {
    cs == [] || (Placed(mem, base, d, cs[0]) && AllPlaced(mem, base, d + DIRENT, cs[1..]))
  }

  lemma HoldsSplit(mem: Bytes, base: int, a: int, x: Bytes, y: Bytes)
    requires Holds(mem, base, a, x + y)
    ensures Holds(mem, base, a, x) && Holds(mem, base, a + |x|, y)
  {
    var o := a - base;
    assert mem[o..o + |x|] == mem[o..o + |x + y|][..|x|] == x;
    assert mem[o + |x|..o + |x| + |y|] == mem[o..o + |x + y|][|x|..] == y;
  }

  lemma WordReads(mem: Bytes, base: int, a: int, x: int)
    requires Holds(mem, base, a, Word(x)) && Packs(x)
    ensures ReadWord(mem, base, a) == x
  {
    assert Slice(mem, base, a, 4) == Word(x);
    WordValue(x);
  }

  lemma WordValue(x: int)
    requires Packs(x)
    ensures x % 256 + 256 * (x / 256 % 256) + 65536 * (x / 65536 % 256) + 16777216 * (x / 16777216 % 256) == x
  {
    assert x / 65536 == x / 256 / 256;
    assert x / 16777216 == x / 65536 / 256;
  }

  lemma DirentReads(mem: Bytes, base: int, d: int, c: Node, na: int, da: int)
    requires Holds(mem, base, d, Dirent(c, na, da)) && Packs(na) && Packs(da) && Packs(EntrySize(c))
    ensures ReadWord(mem, base, d) == Type(c) && ReadWord(mem, base, d + 4) == na
    ensures ReadWord(mem, base, d + 8) == da && ReadWord(mem, base, d + 12) == EntrySize(c)
  {
    HoldsSplit(mem, base, d, Word(Type(c)) + Word(na) + Word(da), Word(EntrySize(c)));
    HoldsSplit(mem, base, d, Word(Type(c)) + Word(na), Word(da));
    HoldsSplit(mem, base, d, Word(Type(c)), Word(na));
    WordReads(mem, base, d, Type(c));
    WordReads(mem, base, d + 4, na);
    WordReads(mem, base, d + 8, da);
    WordReads(mem, base, d + 12, EntrySize(c));
  }

  lemma NameHolds(mem: Bytes, base: int, a: int, name: Bytes)
    requires Holds(mem, base, a, BinName(name))
    ensures Holds(mem, base, a, name + [0])
  {
    var k := 4 - |name| % 4;
    assert BinName(name) == (name + [0]) + Zeros(k - 1);
    HoldsSplit(mem, base, a, name + [0], Zeros(k - 1));
  }

  /** What is written for a list of nodes puts each of them in place. */
  lemma {:induction false} WritePlaces(cs: seq<Node>, mem: Bytes, base: int, d: int, v: int)
    requires Holds(mem, base, d, Dirents(cs, v)) && Holds(mem, base, v, Payload(cs, v))
    requires AllFit(cs, v) && (base % 4 == 0 ==> v % 4 == 0)
    ensures AllPlaced(mem, base, d, cs)
    decreases cs
  {
    hide Holds, ReadWord, Dirent, BinName, Padded, Dirents, Payload, AllFit, BinData, Fits;
    if cs != [] {
      var c, name := cs[0], BinName(cs[0].name);
      WriteStep(cs, 0, v);
      assert cs[0..] == cs;
      var da := v + |name|;
      var data := Padded(BinData(c, da));
      HoldsSplit(mem, base, d, Dirent(c, v, da), Dirents(cs[1..], da + |data|));
      HoldsSplit(mem, base, v, name + data, Payload(cs[1..], da + |data|));
      HoldsSplit(mem, base, v, name, data);
      DirentReads(mem, base, d, c, v, da);
      NameHolds(mem, base, v, c.name);
      DataHolds(mem, base, da, BinData(c, da));
      if c.File? { FileData(c, da); }
      if c.Folder? { FolderPlaces(c, mem, base, da); }
      WritePlaces(cs[1..], mem, base, d + DIRENT, da + |data|);
    }
  }

  lemma DataHolds(mem: Bytes, base: int, a: int, data: Bytes)
    requires Holds(mem, base, a, Padded(data))
    ensures Holds(mem, base, a, data)
  {
    assert Padded(data) == data + Padded(data)[|data|..];
    HoldsSplit(mem, base, a, data, Padded(data)[|data|..]);
  }

  lemma {:induction false} FolderPlaces(c: Node, mem: Bytes, base: int, a: int)
    requires c.Folder? && Holds(mem, base, a, BinData(c, a)) && Fits(c, a) && (base % 4 == 0 ==> a % 4 == 0)
    ensures AllPlaced(mem, base, a, c.children)
    decreases c
  {
    hide Holds, ReadWord, Dirent, BinName, Padded, Dirents, Payload, AllPlaced, AllFit, LenAll;
    var cs := c.children;
    var p := a + DIRENT * |cs|;
    LengthOfAll(cs, p);
    HoldsSplit(mem, base, a, Dirents(cs, p), Payload(cs, p));
    WritePlaces(cs, mem, base, a, p);
  }

  // ----- and is found again

  lemma {:induction false} CStringStops(name: Bytes, rest: Bytes)
    requires 0 !in name
    ensures CString(name + [0] + rest) == name
  {
    if name == [] {
      assert (name + [0] + rest)[0] == 0;
    } else {
      assert (name + [0] + rest)[1..] == name[1..] + [0] + rest;
      CStringStops(name[1..], rest);
    }
  }

  lemma NameReads(mem: Bytes, base: int, a: int, name: Bytes)
    requires Holds(mem, base, a, name + [0]) && 0 !in name
    ensures ReadName(mem, base, a) == name
  {
    var o := a - base;
    assert mem[o..] == mem[o..o + |name| + 1] + mem[o + |name| + 1..];
    CStringStops(name, mem[o + |name| + 1..]);
  }

  lemma DataReads(mem: Bytes, base: int, a: int, data: Bytes)
    requires Holds(mem, base, a, data)
    ensures Slice(mem, base, a, |data|) == data
  {
  }

  lemma {:induction false} PlacedReads(mem: Bytes, base: int, d: int, c: Node, fuel: nat)
    requires Placed(mem, base, d, c) && Named(c) && fuel >= Height(c)
    ensures ReadNode(mem, base, d, fuel) == c
    decreases c
  {
    hide ReadWord, Holds, ReadName, CString, AllPlaced, ReadNodes, HeightAll, AllNamed;
    NameReads(mem, base, ReadWord(mem, base, d + 4), c.name);
    if c.File? { DataReads(mem, base, ReadWord(mem, base, d + 8), c.data); }
    if c.Folder? { AllPlacedRead(mem, base, ReadWord(mem, base, d + 8), c.children, fuel - 1); }
  }

  lemma {:induction false} AllPlacedRead(mem: Bytes, base: int, d: int, cs: seq<Node>, fuel: nat)
    requires AllPlaced(mem, base, d, cs) && AllNamed(cs) && fuel >= HeightAll(cs)
    ensures ReadNodes(mem, base, d, |cs|, fuel) == cs
    decreases cs
  {
    if cs != [] {
      PlacedReads(mem, base, d, cs[0], fuel);
      AllPlacedRead(mem, base, d + DIRENT, cs[1..], fuel);
      assert cs == [cs[0]] + cs[1..];
    }
  }

  lemma HoldsAll(mem: Bytes, base: int)
    ensures Holds(mem, base, base, mem)
  {
  }

  /** Every entry of an image leads, by aligned addresses, to its own name and data. */
  lemma ImagePlaces(tree: Node, base: int)
    requires tree.Folder? && Image(tree, base).Ok?
    ensures Placed(Image(tree, base).image, base, base, Folder(ROOT, tree.children))
  {
    hide Holds, ReadWord, Dirent, BinName, BinData, AllPlaced, Fits;
    var mem := Image(tree, base).image;
    var n := base + DIRENT;
    var d := n + |BinName(ROOT)|;
    HoldsAll(mem, base);
    HoldsSplit(mem, base, base, Dirent(tree, n, d) + BinName(ROOT), BinData(tree, d));
    HoldsSplit(mem, base, base, Dirent(tree, n, d), BinName(ROOT));
    DirentReads(mem, base, base, tree, n, d);
    NameHolds(mem, base, n, ROOT);
    FolderPlaces(tree, mem, base, d);
  }

  /** Reading the image from its root entry gives back the tree: the same names, files and bytes, whatever
      the tree and the address. */
  lemma ImageRoundTrip(tree: Node, base: int, fuel: nat)
    requires tree.Folder? && AllNamed(tree.children) && Image(tree, base).Ok? && fuel >= Height(tree)
    ensures ReadNode(Image(tree, base).image, base, base, fuel) == Folder(ROOT, tree.children)
  {
    ImagePlaces(tree, base);
    PlacedReads(Image(tree, base).image, base, base, Folder(ROOT, tree.children), fuel);
  }

  /** An image can be written exactly if its first and last address and the sizes of its files are 32-bit numbers. */
  lemma ImageOk(tree: Node, base: int)
    requires tree.Folder?
    ensures Image(tree, base).Ok? <==> 0 <= base + DIRENT && base + DIRENT + 4 + Last(tree) < WORD && FilesPack(tree)
    ensures Image(tree, base).Ok? ==> |Image(tree, base).image| == DIRENT + 4 + Len(tree)
  {
    hide Fits, BinData, Len, Dirent, Last, FilesPack;
    var d := base + DIRENT + |BinName(ROOT)|;
    assert |BinName(ROOT)| == 4;
    if 0 <= base + DIRENT && d < WORD { FitsIff(tree, d); }
    LengthOf(tree, d);
  }

  // ----- the code

  /** bin_data of a file or a folder. */
  method WriteNode(c: Node, base: int) returns (r: Result)
    ensures r == if Fits(c, base) then Ok(BinData(c, base)) else StructError
    decreases c, 1
  {
    hide BinData, Fits, Dirents, Payload, AllFit;
    match c
    case File(_, data) =>
      FileData(c, base);
      r := Ok(data);
    case Folder(_, children) =>
      FolderData(c, base);
      r := WriteFolder(c, base);
  }

  method WriteFolder(c: Node, base: int) returns (r: Result)
    requires c.Folder?
    ensures var p := base + DIRENT * |c.children|;
            r == if AllFit(c.children, p) then Ok(Dirents(c.children, p) + Payload(c.children, p)) else StructError
    decreases c, 0
  {
    hide BinData, Fits, BinName, Padded, Dirent, Dirents, Payload, AllFit;
    var children := c.children;
    var dirents, payload, v := [], [], base + DIRENT * |children|;
    ghost var p := v;
    var i := 0;
    assert children[0..] == children;
    while i < |children|
      invariant 0 <= i <= |children|
      invariant Dirents(children, p) == dirents + Dirents(children[i..], v)
      invariant Payload(children, p) == payload + Payload(children[i..], v)
      invariant AllFit(children, p) <==> AllFit(children[i..], v)
    {
      var ch := children[i];
      WriteStep(children, i, v);
      var name := BinName(ch.name);
      var nameAddr := v;
      v := v + |name|;
      var sub := WriteNode(ch, v);
      if sub.StructError? {
        return StructError;
      }
      var dataAddr := v;
      var data := Padded(sub.image);
      v := v + |data|;
      if !(Packs(nameAddr) && Packs(dataAddr) && Packs(EntrySize(ch))) {
        return StructError;
      }
      dirents := dirents + Dirent(ch, nameAddr, dataAddr);
      payload := payload + (name + data);
      i := i + 1;
    }
    assert children[i..] == [];
    NoMore(v);
    r := Ok(dirents + payload);
  }

  lemma WriteStep(cs: seq<Node>, i: nat, v: int)
    requires i < |cs|
    ensures var ch, d := cs[i], v + |BinName(cs[i].name)|;
            var data := Padded(BinData(ch, d));
            && Dirents(cs[i..], v) == Dirent(ch, v, d) + Dirents(cs[i + 1..], d + |data|)
            && Payload(cs[i..], v) == BinName(ch.name) + data + Payload(cs[i + 1..], d + |data|)
            && (AllFit(cs[i..], v)
                <==> Packs(v) && Packs(d) && Packs(EntrySize(ch)) && Fits(ch, d) && AllFit(cs[i + 1..], d + |data|))
  {
    hide BinData, Fits, BinName, Padded, Dirent;
    assert cs[i..][0] == cs[i] && cs[i..][1..] == cs[i + 1..];
  }

  lemma NoMore(v: int)
    ensures Dirents([], v) == [] && Payload([], v) == [] && AllFit([], v)
  {
  }

  lemma FileData(c: Node, base: int)
    requires c.File?
    ensures BinData(c, base) == c.data && Fits(c, base)
  {
  }

  lemma FolderData(c: Node, base: int)
    requires c.Folder?
    ensures var p := base + DIRENT * |c.children|;
            BinData(c, base) == Dirents(c.children, p) + Payload(c.children, p)
              && (Fits(c, base) <==> AllFit(c.children, p))
  {
    hide Dirents, Payload, AllFit;
  }

  /** get_bin_data. */
  method WriteImage(tree: Node, base: int) returns (r: Result)
    requires tree.Folder?
    ensures r == Image(tree, base)
  {
    var v := base + DIRENT;
    var name := ROOT + [0, 0, 0];
    assert BinName(ROOT) == name;
    var nameAddr := v;
    v := v + |name|;
    var dataAddr := v;
    if !(Packs(nameAddr) && Packs(dataAddr) && Packs(EntrySize(tree))) {
      return StructError;
    }
    var data := WriteNode(tree, v);
    if data.StructError? {
      return StructError;
    }
    r := Ok(Dirent(tree, nameAddr, dataAddr) + name + data.image);
  }
}
