/** Snapshot hashes. Hashing is ideal, so a digest is the text that was fed to the hasher; UTF-8 is injective and
    keeps the separators, so pre-images are compared as text. */
module Hashes {
  import opened Collections

  type Digest = string

  const NUL: char := '\0'

  ghost predicate NulFree(s: string) { NUL !in s }

  ghost predicate LineFree(s: string) { '\n' !in s }

  // ---------------------------------------------------- working-tree fingerprint

  function TreeRow(path: string, hash: Digest): string { path + [NUL] + hash + ['\n'] }

  function TreeRows(paths: seq<string>, hashes: map<string, Digest>): string
    requires forall p :: p in paths ==> p in hashes
  {
    if paths == [] then "" else TreeRow(paths[0], hashes[paths[0]]) + TreeRows(paths[1..], hashes)
  }

  function TreeFingerprint(hashes: map<string, Digest>): Digest { TreeRows(Sorted(hashes.Keys), hashes) }

  lemma {:induction false} TreeRowsSnoc(paths: seq<string>, p: string, hashes: map<string, Digest>)
    requires (forall q :: q in paths ==> q in hashes) && p in hashes
    ensures TreeRows(paths + [p], hashes) == TreeRows(paths, hashes) + TreeRow(p, hashes[p])
  {
    if paths == [] {
      assert [p][1..] == [];
    } else {
      assert (paths + [p])[1..] == paths[1..] + [p];
      TreeRowsSnoc(paths[1..], p, hashes);
      AppendAssociates(TreeRow(paths[0], hashes[paths[0]]), TreeRows(paths[1..], hashes), TreeRow(p, hashes[p]));
    }
  }

  /** Feeding one piece after the other. */
  lemma FedRow(fed: string, path: string, hash: Digest)
    ensures (((fed + path) + [NUL]) + hash) + ['\n'] == fed + TreeRow(path, hash)
  {
  }

  method WorkingTreeFingerprint(hashes: map<string, Digest>) returns (digest: Digest)
    ensures digest == TreeFingerprint(hashes)
  {
    var fed := "";
    var order := Sorted(hashes.Keys);
    for i := 0 to |order|
      invariant forall p :: p in order[..i] ==> p in hashes
      invariant fed == TreeRows(order[..i], hashes)
    {
      TakeSnoc(order, i);
      TreeRowsSnoc(order[..i], order[i], hashes);
      FedRow(fed, order[i], hashes[order[i]]);
      fed := fed + order[i];
      fed := fed + [NUL];
      fed := fed + hashes[order[i]];
      fed := fed + ['\n'];
    }
    TakeAll(order);
    digest := fed;
  }

  /** Two files are fed path by path, in order: path, NUL, hash, line break. */
  lemma FingerprintOfTwo(p: string, x: Digest, q: string, y: Digest)
    requires p != q && Leq(p, q)
    ensures TreeFingerprint(map[p := x, q := y]) == p + "\0" + x + "\n" + q + "\0" + y + "\n"
  {
    var m := map[p := x, q := y];
    assert m.Keys == {p, q};
    TwoSorted(p, q);
    TwoRows(p, q, m);
  }

  lemma TwoSorted(p: string, q: string)
    requires p != q && Leq(p, q)
    ensures Sorted({p, q}) == [p, q]
  {
    var order := Sorted({p, q});
    assert |{p, q}| == 2 && order[0] in order && order[1] in order && Leq(order[0], order[1]);
    if order[0] == q { LeqAntisymmetric(p, q); }
  }

  lemma TwoRows(p: string, q: string, m: map<string, Digest>)
    requires p in m && q in m
    ensures TreeRows([p, q], m) == p + "\0" + m[p] + "\n" + q + "\0" + m[q] + "\n"
  {
    assert [p, q][1..] == [q] && [q][1..] == [];
    assert TreeRows([q], m) == TreeRow(q, m[q]) + TreeRows([], m);
  }

  /** Text cut at the first separator is cut the same way twice. */
  lemma {:induction false} SplitUnique(a: string, x: string, b: string, y: string, sep: char)
    requires sep !in a && sep !in b && a + [sep] + x == b + [sep] + y
    ensures a == b && x == y
  {
    var l, r := a + [sep] + x, b + [sep] + y;
    assert l[|a|] == sep && r[|b|] == sep;
    assert a == l[..|a|] == r[..|b|] == b;
    assert x == l[|a| + 1..] == r[|b| + 1..] == y;
  }

  lemma RowSplit(p: string, x: Digest, r: string, q: string, y: Digest, t: string)
    requires NulFree(p) && NulFree(q) && LineFree(x) && LineFree(y)
    requires TreeRow(p, x) + r == TreeRow(q, y) + t
    ensures p == q && x == y && r == t
  {
    assert TreeRow(p, x) + r == p + [NUL] + (x + ['\n'] + r);
    assert TreeRow(q, y) + t == q + [NUL] + (y + ['\n'] + t);
    SplitUnique(p, x + ['\n'] + r, q, y + ['\n'] + t, NUL);
    SplitUnique(x, r, y, t, '\n');
  }

  lemma {:induction false} TreeRowsInjective(ps: seq<string>, m: map<string, Digest>, qs: seq<string>,
      n: map<string, Digest>)
    requires forall p :: p in ps ==> p in m && NulFree(p) && LineFree(m[p])
    requires forall q :: q in qs ==> q in n && NulFree(q) && LineFree(n[q])
    requires TreeRows(ps, m) == TreeRows(qs, n)
    ensures ps == qs && forall p :: p in ps ==> m[p] == n[p]
  {
    if ps != [] && qs != [] {
      RowSplit(ps[0], m[ps[0]], TreeRows(ps[1..], m), qs[0], n[qs[0]], TreeRows(qs[1..], n));
      TreeRowsInjective(ps[1..], m, qs[1..], n);
      assert ps == [ps[0]] + ps[1..] && qs == [qs[0]] + qs[1..];
    }
  }

  /** Equal fingerprints mean equal path-to-hash maps. */
  lemma TreeFingerprintInjective(m: map<string, Digest>, n: map<string, Digest>)
    requires forall p :: p in m ==> NulFree(p) && LineFree(m[p])
    requires forall p :: p in n ==> NulFree(p) && LineFree(n[p])
    ensures TreeFingerprint(m) == TreeFingerprint(n) ==> m == n
  {
    if TreeFingerprint(m) == TreeFingerprint(n) {
      var ps, qs := Sorted(m.Keys), Sorted(n.Keys);
      assert forall p :: p in ps ==> p in m;
      assert forall q :: q in qs ==> q in n;
      TreeRowsInjective(ps, m, qs, n);
      SameKeys(m, n, ps);
    }
  }

  lemma SameKeys(m: map<string, Digest>, n: map<string, Digest>, ps: seq<string>)
    requires forall p :: p in ps <==> p in m
    requires forall p :: p in ps <==> p in n
    requires forall p :: p in ps ==> m[p] == n[p]
    ensures m == n
  {
  }

  // ------------------------------------------------------- membership hash

  datatype Item = Item(tag: char, value: string)

  function Tagged(tag: char, values: seq<string>): seq<Item> {
    seq(|values|, i requires 0 <= i < |values| => Item(tag, values[i]))
  }

  function ItemLine(x: Item): string { [x.tag, NUL] + x.value + ['\n'] }

  function MembershipText(items: seq<Item>): string {
    if items == [] then "" else ItemLine(items[0]) + MembershipText(items[1..])
  }

  function MembershipItems(files: seq<string>, symbols: seq<string>): seq<Item> {
    Tagged('f', SortStrings(files)) + Tagged('s', SortStrings(symbols))
  }

  function MembershipHash(files: seq<string>, symbols: seq<string>): Digest {
    MembershipText(MembershipItems(files, symbols))
  }

  lemma {:induction false} MembershipTextSnoc(items: seq<Item>, x: Item)
    ensures MembershipText(items + [x]) == MembershipText(items) + ItemLine(x)
  {
    if items == [] {
      assert [x][1..] == [];
    } else {
      assert (items + [x])[1..] == items[1..] + [x];
      MembershipTextSnoc(items[1..], x);
      AppendAssociates(ItemLine(items[0]), MembershipText(items[1..]), ItemLine(x));
    }
  }

  lemma FedLine(fed: string, x: Item)
    ensures ((fed + [x.tag, NUL]) + x.value) + ['\n'] == fed + ItemLine(x)
  {
  }

  method ComputeScopeMembershipHash(files: seq<string>, symbols: seq<string>) returns (digest: Digest)
    ensures digest == MembershipHash(files, symbols)
  {
    var fed := "";
    var fs, ss := SortStrings(files), SortStrings(symbols);
    assert [] + Tagged('f', []) == [];
    for i := 0 to |fs|
      invariant fed == MembershipText([] + Tagged('f', fs[..i]))
    {
      TaggedStep([], 'f', fs, i);
      FedLine(fed, Item('f', fs[i]));
      fed := fed + ['f', NUL];
      fed := fed + fs[i];
      fed := fed + ['\n'];
    }
    TakeAll(fs);
    ghost var front := [] + Tagged('f', fs);
    assert front + Tagged('s', ss[..0]) == front;
    for i := 0 to |ss|
      invariant fed == MembershipText(front + Tagged('s', ss[..i]))
    {
      TaggedStep(front, 's', ss, i);
      FedLine(fed, Item('s', ss[i]));
      fed := fed + ['s', NUL];
      fed := fed + ss[i];
      fed := fed + ['\n'];
    }
    TakeAll(ss);
    assert front == Tagged('f', fs);
    digest := fed;
  }

  /** Feeding one more value extends the text by its line. */
  lemma TaggedStep(front: seq<Item>, tag: char, values: seq<string>, i: nat)
    requires i < |values|
    ensures MembershipText(front + Tagged(tag, values[..i + 1]))
         == MembershipText(front + Tagged(tag, values[..i])) + ItemLine(Item(tag, values[i]))
  {
    var before, next := Tagged(tag, values[..i]), Item(tag, values[i]);
    assert Tagged(tag, values[..i + 1]) == before + [next];
    AppendAssociates(front, before, [next]);
    MembershipTextSnoc(front + before, next);
  }

  /** What follows the tag and the NUL of the first line. */
  function AfterTag(x: Item, rest: seq<Item>): string { x.value + ['\n'] + MembershipText(rest) }

  lemma TextFromTag(items: seq<Item>)
    requires items != []
    ensures MembershipText(items) == [items[0].tag] + [NUL] + AfterTag(items[0], items[1..])
  {
  }

  lemma SameTag(a: char, u: string, b: char, v: string)
    requires [a] + [NUL] + u == [b] + [NUL] + v
    ensures a == b && u == v
  {
    var l, r := [a] + [NUL] + u, [b] + [NUL] + v;
    assert l[0] == a && r[0] == b;
    assert u == l[2..] == r[2..] == v;
  }

  lemma SameLengthSplit(v: string, x: string, w: string, y: string)
    requires |v| == |w| && v + ['\n'] + x == w + ['\n'] + y
    ensures v == w && x == y
  {
    var l, r := v + ['\n'] + x, w + ['\n'] + y;
    assert v == l[..|v|] == r[..|w|] == w;
    assert x == l[|v| + 1..] == r[|w| + 1..] == y;
  }

  lemma {:induction false} MembershipTextInjective(a: seq<Item>, b: seq<Item>)
    requires forall x :: x in a ==> NulFree(x.value) && x.tag != NUL
    requires forall x :: x in b ==> NulFree(x.value) && x.tag != NUL
    requires MembershipText(a) == MembershipText(b)
    ensures a == b
  {
    if a != [] && b != [] {
      TextFromTag(a);
      TextFromTag(b);
      SameTag(a[0].tag, AfterTag(a[0], a[1..]), b[0].tag, AfterTag(b[0], b[1..]));
      EntryLength(a[0].value, a[1..], b[0].value, b[1..]);
      SameLengthSplit(a[0].value, MembershipText(a[1..]), b[0].value, MembershipText(b[1..]));
      MembershipTextInjective(a[1..], b[1..]);
      assert a == [a[0]] + a[1..] && b == [b[0]] + b[1..];
    }
  }

  /** A value ends one line break and one tag before the next NUL, or at the last line break. */
  lemma EntryLength(v: string, a: seq<Item>, w: string, b: seq<Item>)
    requires NulFree(v) && NulFree(w)
    requires forall x :: x in a ==> x.tag != NUL
    requires forall x :: x in b ==> x.tag != NUL
    requires v + ['\n'] + MembershipText(a) == w + ['\n'] + MembershipText(b)
    ensures |v| == |w|
  {
    HasSeparator(v, a);
    HasSeparator(w, b);
    if a != [] && b != [] {
      UpToSeparator(v, a);
      UpToSeparator(w, b);
      SplitUnique(v + ['\n', a[0].tag], AfterTag(a[0], a[1..]), w + ['\n', b[0].tag], AfterTag(b[0], b[1..]), NUL);
    } else if a == [] && b == [] {
      assert |v + ['\n'] + MembershipText(a)| == |v| + 1;
    }
  }

  lemma UpToSeparator(v: string, a: seq<Item>)
    requires a != []
    ensures v + ['\n'] + MembershipText(a) == v + ['\n', a[0].tag] + [NUL] + AfterTag(a[0], a[1..])
  {
    TextFromTag(a);
  }

  lemma HasSeparator(v: string, a: seq<Item>)
    requires NulFree(v)
    ensures NUL in v + ['\n'] + MembershipText(a) <==> a != []
  {
    if a != [] {
      assert MembershipText(a)[1] == NUL;
      assert NUL in MembershipText(a);
    }
  }

  lemma TaggedSplit(f: seq<string>, s: seq<string>, g: seq<string>, t: seq<string>)
    requires Tagged('f', f) + Tagged('s', s) == Tagged('f', g) + Tagged('s', t)
    ensures f == g && s == t
  {
    var a, b := Tagged('f', f) + Tagged('s', s), Tagged('f', g) + Tagged('s', t);
    assert forall i :: 0 <= i < |a| ==> a[i].tag == if i < |f| then 'f' else 's';
    assert forall i :: 0 <= i < |b| ==> b[i].tag == if i < |g| then 'f' else 's';
    var m := if |f| < |g| then |f| else |g|;
    assert m < |a| ==> a[m].tag == b[m].tag;
    forall i | 0 <= i < |f| ensures f[i] == g[i] { assert a[i].value == b[i].value; }
    forall i | 0 <= i < |s| ensures s[i] == t[i] { assert a[|f| + i].value == b[|f| + i].value; }
  }

  /** One file and one symbol: each is fed with its tag, the file first. */
  lemma MembershipOfTwo(f: string, y: string)
    ensures MembershipHash([f], [y]) == "f\0" + f + "\n" + "s\0" + y + "\n"
  {
    var a, b := Item('f', f), Item('s', y);
    assert SortStrings([f]) == [f] && SortStrings([y]) == [y];
    assert MembershipItems([f], [y]) == [a, b] && [a, b][1..] == [b] && [b][1..] == [];
    assert MembershipText([b]) == ItemLine(b) + MembershipText([]);
    assert ['f', NUL] == "f\0" && ['s', NUL] == "s\0";
  }

  /** Two membership hashes agree exactly when the membership lists do, up to order. */
  lemma MembershipHashExact(files: seq<string>, symbols: seq<string>, files': seq<string>, symbols': seq<string>)
    requires forall p :: p in files + symbols + files' + symbols' ==> NulFree(p)
    ensures MembershipHash(files, symbols) == MembershipHash(files', symbols')
        <==> multiset(files) == multiset(files') && multiset(symbols) == multiset(symbols')
  {
    if multiset(files) == multiset(files') && multiset(symbols) == multiset(symbols') {
      AscendingUnique(SortStrings(files), SortStrings(files'));
      AscendingUnique(SortStrings(symbols), SortStrings(symbols'));
    }
    if MembershipHash(files, symbols) == MembershipHash(files', symbols') {
      ItemsNulFree(files, symbols);
      ItemsNulFree(files', symbols');
      MembershipTextInjective(MembershipItems(files, symbols), MembershipItems(files', symbols'));
      TaggedSplit(SortStrings(files), SortStrings(symbols), SortStrings(files'), SortStrings(symbols'));
    }
  }

  lemma ItemsNulFree(files: seq<string>, symbols: seq<string>)
    requires forall p :: p in files ==> NulFree(p)
    requires forall p :: p in symbols ==> NulFree(p)
    ensures forall x :: x in MembershipItems(files, symbols) ==> NulFree(x.value) && x.tag != NUL
  {
    SortStringsMembers(files);
    SortStringsMembers(symbols);
    TaggedMembers('f', SortStrings(files));
    TaggedMembers('s', SortStrings(symbols));
  }

  lemma TaggedMembers(tag: char, values: seq<string>)
    ensures forall x :: x in Tagged(tag, values) ==> x.tag == tag && x.value in values
  {
  }

  // --------------------------------------------------------- source hashes

  /** The files a record is bound to: those it names, and those that declare the symbols it names. */
  function Covered(files: seq<string>, symbols: seq<string>, owner: map<string, string>): set<string> {
    (set f | f in files) + set s | s in symbols && s in owner :: owner[s]
  }

  function SourceHashes(files: seq<string>, symbols: seq<string>, fileHashes: map<string, Digest>,
      owner: map<string, string>): map<string, Digest> {
    map p | p in Covered(files, symbols, owner) && p in fileHashes :: fileHashes[p]
  }

  /** The hashes of exactly the indexed files that are named or declare a symbol that is named. */
  ghost predicate SourcesAre(
    hashes: map<string, Digest>, files: seq<string>, symbols: seq<string>, fileHashes: map<string, Digest>,
        owner: map<string, string>)
  {
    && (forall p :: p in hashes <==>
          p in fileHashes && (p in files || exists y :: y in symbols && y in owner && owner[y] == p))
    && (forall p :: p in hashes ==> hashes[p] == fileHashes[p])
  }

  lemma SourcesAreHashes(
    hashes: map<string, Digest>, files: seq<string>, symbols: seq<string>, fileHashes: map<string, Digest>,
        owner: map<string, string>)
    ensures SourcesAre(hashes, files, symbols, fileHashes, owner)
        <==> hashes == SourceHashes(files, symbols, fileHashes, owner)
  {
    var m := SourceHashes(files, symbols, fileHashes, owner);
    assert SourcesAre(m, files, symbols, fileHashes, owner);
    if SourcesAre(hashes, files, symbols, fileHashes, owner) {
      assert forall p :: p in hashes <==> p in m;
    }
  }

  method ComputeSourceHashes(files: seq<string>, symbols: seq<string>, fileHashes: map<string, Digest>,
      owner: map<string, string>)
    returns (hashes: map<string, Digest>)
    ensures hashes == SourceHashes(files, symbols, fileHashes, owner)
  {
    var paths := set f | f in files;
    for i := 0 to |symbols|
      invariant paths == Covered(files, symbols[..i], owner)
    {
      TakeSnoc(symbols, i);
      if symbols[i] in owner {
        paths := paths + {owner[symbols[i]]};
      }
    }
    TakeAll(symbols);
    hashes := map p | p in paths && p in fileHashes :: fileHashes[p];
  }
}
