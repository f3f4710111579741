/** Keys of the writeback ledger (eventfs-transport/src/storage/nats/ledger.rs): a kind followed by
    length-prefixed parts, and the subject that carries a key as base 16 text. */
module Ledger {
  import opened Text
  import opened FileNames

  /** One part with its byte length. */
  function Piece(part: string): string {
    "|" + Decimal(|Utf8(part)|) + ":" + part
  }

  function Pieces(parts: seq<string>): string {
    if parts == [] then "" else Pieces(parts[..|parts| - 1]) + Piece(parts[|parts| - 1])
  }

  function ScopedKey(kind: string, parts: seq<string>): string {
    kind + Pieces(parts)
  }

  /** `scoped_key`, the loop. */
  method BuildScopedKey(kind: string, parts: seq<string>) returns (key: string)
    ensures key == ScopedKey(kind, parts)
  {
    key := kind;
    for i := 0 to |parts|
      invariant key == kind + Pieces(parts[..i])
    {
      assert parts[..i + 1][..i] == parts[..i];
      key := key + "|" + Decimal(|Utf8(parts[i])|) + ":";
      key := key + parts[i];
      assert key == kind + Pieces(parts[..i]) + Piece(parts[i]);
    }
    assert parts[..|parts|] == parts;
  }

  // ---- reading a key back ----

  lemma PiecesBack(parts: seq<string>, last: string)
    ensures Pieces(parts + [last]) == Pieces(parts) + Piece(last) && Pieces([]) == ""
  {
    hide Piece;
    assert (parts + [last])[..|parts|] == parts;
  }

  lemma {:induction false} PiecesFront(parts: seq<string>)
    requires parts != []
    ensures Pieces(parts) == Piece(parts[0]) + Pieces(parts[1..])
  {
    hide Piece, Pieces;
    var n := |parts| - 1;
    var front, last := parts[..n], parts[n];
    assert parts == front + [last];
    PiecesBack(front, last);
    if n > 0 {
      PiecesFront(front);
      assert parts[1..] == front[1..] + [last];
      PiecesBack(front[1..], last);
      assert Piece(parts[0]) + (Pieces(front[1..]) + Piece(last)) ==
             (Piece(parts[0]) + Pieces(front[1..])) + Piece(last);
    } else {
      assert parts[1..] == [] && front == [];
    }
  }

  lemma Utf8Step(s: string)
    ensures Utf8(s) == if s == "" then [] else EncodeChar(s[0]) + Utf8(s[1..])
  {
    hide EncodeChar;
  }

  lemma BytesReassociate(a: seq<Byte>, b: seq<Byte>, c: seq<Byte>)
    ensures a + (b + c) == (a + b) + c
  {
  }

  lemma {:induction false} Utf8Append(a: string, b: string)
    ensures Utf8(a + b) == Utf8(a) + Utf8(b)
  {
    hide EncodeChar, Utf8;
    Utf8Step(a);
    if a == "" {
      assert a + b == b;
    } else {
      Utf8Step(a + b);
      Utf8Append(a[1..], b);
      assert (a + b)[1..] == a[1..] + b && (a + b)[0] == a[0];
      BytesReassociate(EncodeChar(a[0]), Utf8(a[1..]), Utf8(b));
    }
  }

  /** Two prefixes of one text with the same byte length are the same. */
  lemma SamePrefix(a: string, b: string, text: string)
    requires a <= text && b <= text && |Utf8(a)| == |Utf8(b)|
    ensures a == b
  {
    var short, long := if |a| <= |b| then a else b, if |a| <= |b| then b else a;
    assert long == short + long[|short|..];
    Utf8Append(short, long[|short|..]);
    SomeBytes(long[|short|..]);
  }

  lemma SomeBytes(s: string)
    ensures s == "" <==> |Utf8(s)| == 0
  {
  }

  /** The first piece and what follows it can be told from the text. */
  lemma PieceParses(a: string, s: string, b: string, t: string)
    requires Piece(a) + s == Piece(b) + t
    ensures a == b && s == t
  {
    hide Decimal, Utf8, Split;
    var m, n := Decimal(|Utf8(a)|), Decimal(|Utf8(b)|);
    var rest := (Piece(a) + s)[1..];
    assert rest == m + [':'] + (a + s) && rest == n + [':'] + (b + t);
    hide Piece;
    NoColon(|Utf8(a)|);
    NoColon(|Utf8(b)|);
    SplitHead(m, a + s, ':');
    SplitHead(n, b + t, ':');
    assert m == Split(rest, ':')[0] == n;
    DecimalInjective(|Utf8(a)|, |Utf8(b)|);
    var text := rest[|m| + 1..];
    assert text == a + s && text == b + t;
    SamePrefix(a, b, text);
    assert s == text[|a|..] && t == text[|b|..];
  }

  lemma NoColon(n: nat)
    ensures ':' !in Decimal(n)
  {
    assert forall i :: 0 <= i < |Decimal(n)| ==> IsDigit(Decimal(n)[i]);
  }

  lemma {:induction false} PiecesInjective(a: seq<string>, b: seq<string>)
    requires Pieces(a) == Pieces(b)
    ensures a == b
  {
    if a != [] && b != [] {
      PiecesFront(a);
      PiecesFront(b);
      PieceParses(a[0], Pieces(a[1..]), b[0], Pieces(b[1..]));
      PiecesInjective(a[1..], b[1..]);
      assert a == [a[0]] + a[1..] && b == [b[0]] + b[1..];
    } else {
      PiecesEmpty(a);
      PiecesEmpty(b);
    }
  }

  lemma PiecesEmpty(parts: seq<string>)
    ensures Pieces(parts) == "" <==> parts == []
    ensures parts != [] ==> Pieces(parts)[0] == '|'
  {
    if parts != [] {
      PiecesFront(parts);
    }
  }

  lemma KindParses(kind: string, parts: seq<string>)
    requires '|' !in kind
    ensures Split(ScopedKey(kind, parts), '|')[0] == kind
  {
    PiecesEmpty(parts);
    if parts == [] {
      SplitSolid(kind, '|');
      assert ScopedKey(kind, parts) == kind;
    } else {
      var rest := Pieces(parts)[1..];
      assert ScopedKey(kind, parts) == kind + ['|'] + rest;
      SplitHead(kind, rest, '|');
    }
  }

  /** No two kinds and part lists share a key, for kinds without a bar. */
  lemma ScopedKeyInjective(kind: string, parts: seq<string>, kind': string, parts': seq<string>)
    requires '|' !in kind && '|' !in kind'
    requires ScopedKey(kind, parts) == ScopedKey(kind', parts')
    ensures kind == kind' && parts == parts'
  {
    KindParses(kind, parts);
    KindParses(kind', parts');
    assert Pieces(parts) == ScopedKey(kind, parts)[|kind|..];
    assert Pieces(parts') == ScopedKey(kind', parts')[|kind|..];
    PiecesInjective(parts, parts');
  }

  /** With one kind the parts are always told apart. */
  lemma ScopedPartsInjective(kind: string, parts: seq<string>, parts': seq<string>)
    requires ScopedKey(kind, parts) == ScopedKey(kind, parts')
    ensures parts == parts'
  {
    assert Pieces(parts) == ScopedKey(kind, parts)[|kind|..];
    assert Pieces(parts') == ScopedKey(kind, parts')[|kind|..];
    PiecesInjective(parts, parts');
  }

  /** A kind with a bar in it could imitate the parts of another; no caller uses such a kind. */
  lemma KindWithBarCollides()
    ensures ScopedKey("a|1:b", []) == ScopedKey("a", ["b"])
  {
    assert Utf8("b") == EncodeChar('b') + Utf8("");
    assert ["b"][..0] == [];
    assert Pieces([]) == "" && Pieces(["b"]) == Pieces([]) + Piece("b");
  }

  // ---- the ledger ----

  const SUBJECT_PREFIX: string := "eventfs.writeback"

  function LedgerSubject(key: string): string {
    SUBJECT_PREFIX + "." + Hex(Utf8(key))
  }

  lemma HexTextInjective(a: string, b: string)
    requires Hex(Utf8(a)) == Hex(Utf8(b))
    ensures a == b
  {
    UnhexHex(Utf8(a));
    UnhexHex(Utf8(b));
    Utf8RoundTrip(a);
    Utf8RoundTrip(b);
  }

  /** One operation's ledger message never stands on another's subject. */
  lemma LedgerSubjectInjective(a: string, b: string)
    requires LedgerSubject(a) == LedgerSubject(b)
    ensures a == b
  {
    assert Hex(Utf8(a)) == LedgerSubject(a)[|SUBJECT_PREFIX| + 1..];
    assert Hex(Utf8(b)) == LedgerSubject(b)[|SUBJECT_PREFIX| + 1..];
    HexTextInjective(a, b);
  }

  datatype Effect = KvEffect(bucket: string, key: string, id: string)
                  | ObjectEffect(bucket: string, name: string, id: string)
                  | LineEffect(stream: string, subject: string, messageId: string)

  /** `writeback_ledger_key` of the KV, object and stream adapters. */
  function EffectKey(e: Effect): string {
    match e
    case KvEffect(b, key, id) => ScopedKey("kv", [b, key, id])
    case ObjectEffect(b, name, id) => ScopedKey("object", [b, name, id])
    case LineEffect(s, subject, messageId) => ScopedKey("stream", [s, subject, messageId])
  }

  /** So the recorded fact of one effect never proves another. */
  lemma EffectKeyInjective(a: Effect, b: Effect)
    requires EffectKey(a) == EffectKey(b)
    ensures a == b
  {
    var (k, p) := KindAndParts(a);
    var (k', p') := KindAndParts(b);
    ScopedKeyInjective(k, p, k', p');
    hide ScopedKey;
    assert p[0] == p'[0] && p[1] == p'[1] && p[2] == p'[2];
  }

  function KindAndParts(e: Effect): (r: (string, seq<string>))
    ensures EffectKey(e) == ScopedKey(r.0, r.1) && '|' !in r.0 && |r.1| == 3
  {
    match e
    case KvEffect(b, key, id) => ("kv", [b, key, id])
    case ObjectEffect(b, name, id) => ("object", [b, name, id])
    case LineEffect(s, subject, messageId) => ("stream", [s, subject, messageId])
  }
}
