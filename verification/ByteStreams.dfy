/** Bytes, and the splitting of a byte string at a separator. */
module ByteStreams {

  newtype byte = x: int | 0 <= x < 256

  type Bytes = seq<byte>

  const NUL: byte := 0
  const SOH: byte := 1
  const LF: byte := 10
  const CR: byte := 13

  function Flatten<T>(ss: seq<seq<T>>): seq<T> {
    if ss == [] then [] else Flatten(ss[..|ss| - 1]) + ss[|ss| - 1]
  }

  lemma {:induction false} FlattenConcat<T>(a: seq<seq<T>>, b: seq<seq<T>>)
    ensures Flatten(a + b) == Flatten(a) + Flatten(b)
  {
    if b == [] {
      assert a + b == a;
    } else {
      FlattenConcat(a, b[..|b| - 1]);
      assert (a + b)[..|a + b| - 1] == a + b[..|b| - 1];
    }
  }

  /** The parts between separators; there is always a last one, the text after the last separator. */
  function Split(s: Bytes, sep: byte): (parts: seq<Bytes>)
    ensures parts != []
  {
    if s == [] then [[]]
    else Prepend(s[0], Split(s[1..], sep), sep)
  }

  function Prepend(x: byte, parts: seq<Bytes>, sep: byte): seq<Bytes>
    requires parts != []
  {
    if x == sep then [[]] + parts else [[x] + parts[0]] + parts[1..]
  }

  function Join(parts: seq<Bytes>, sep: byte): Bytes
    requires parts != []
  {
    if |parts| == 1 then parts[0] else parts[0] + [sep] + Join(parts[1..], sep)
  }

  /** Split is what undoes Join: no part holds a separator, and joined again the parts are the text. */
  lemma {:induction false} SplitIsExact(s: Bytes, sep: byte)
    ensures Join(Split(s, sep), sep) == s
    ensures forall part :: part in Split(s, sep) ==> sep !in part
  {
    if s != [] {
      SplitIsExact(s[1..], sep);
      PrependIsExact(s[0], Split(s[1..], sep), sep);
      assert s == [s[0]] + s[1..];
    }
  }

  lemma PrependIsExact(x: byte, parts: seq<Bytes>, sep: byte)
    requires parts != [] && forall part :: part in parts ==> sep !in part
    ensures Join(Prepend(x, parts, sep), sep) == [x] + Join(parts, sep)
    ensures forall part :: part in Prepend(x, parts, sep) ==> sep !in part
  {
    var more := Prepend(x, parts, sep);
    if x == sep {
      assert more[1..] == parts;
    } else {
      assert more[1..] == parts[1..] && parts[0] in parts;
      forall part | part in more ensures sep !in part {
        assert part == [x] + parts[0] || part in parts;
      }
    }
  }

  lemma {:induction false} NoSeparator(s: Bytes, sep: byte)
    requires sep !in s
    ensures Split(s, sep) == [s]
  {
    if s != [] {
      NoSeparator(s[1..], sep);
      assert s == [s[0]] + s[1..];
    }
  }

  function Complete(s: Bytes, sep: byte): seq<Bytes> {
    Split(s, sep)[..|Split(s, sep)| - 1]
  }

  function Tail(s: Bytes, sep: byte): Bytes {
    Split(s, sep)[|Split(s, sep)| - 1]
  }

  /** A text that grows keeps its complete parts, and goes on from its tail. */
  lemma {:induction false} SplitGrows(a: Bytes, b: Bytes, sep: byte)
    ensures Split(a + b, sep) == Complete(a, sep) + Split(Tail(a, sep) + b, sep)
  {
    if a == [] {
      assert a + b == b && Tail(a, sep) + b == b;
    } else {
      SplitGrows(a[1..], b, sep);
      DropFirst(a, b);
      GrowsAtFront(a, b, sep, Complete(a[1..], sep), Tail(a[1..], sep));
    }
  }

  lemma PrependToMore(x: byte, init: seq<Bytes>, last: seq<Bytes>, sep: byte)
    requires init != []
    ensures Prepend(x, init + last, sep) == Prepend(x, init, sep) + last
  {
  }

  lemma GrowsAtFront(a: Bytes, b: Bytes, sep: byte, init: seq<Bytes>, tail: Bytes)
    requires a != [] && Split(a[1..], sep) == init + [tail]
    requires (a + b)[1..] == a[1..] + b && Split(a[1..] + b, sep) == init + Split(tail + b, sep)
    ensures Split(a + b, sep) == Complete(a, sep) + Split(Tail(a, sep) + b, sep)
  {
    var x := a[0];
    assert Split(a, sep) == Prepend(x, init + [tail], sep);
    assert Split(a + b, sep) == Prepend(x, init + Split(tail + b, sep), sep);
    if init != [] {
      PrependToMore(x, init, [tail], sep);
      PrependToMore(x, init, Split(tail + b, sep), sep);
      SplitInTwo(a, sep, Prepend(x, init, sep), tail);
    } else {
      assert init + [tail] == [tail] && init + Split(tail + b, sep) == Split(tail + b, sep);
      GrowsFirstPart(a, b, sep, tail);
    }
  }

  lemma SplitInTwo(a: Bytes, sep: byte, init: seq<Bytes>, tail: Bytes)
    requires Split(a, sep) == init + [tail]
    ensures Complete(a, sep) == init && Tail(a, sep) == tail
  {
  }

  lemma GrowsFirstPart(a: Bytes, b: Bytes, sep: byte, tail: Bytes)
    requires a != [] && Split(a, sep) == Prepend(a[0], [tail], sep)
    requires Split(a + b, sep) == Prepend(a[0], Split(tail + b, sep), sep)
    ensures Split(a + b, sep) == Complete(a, sep) + Split(Tail(a, sep) + b, sep)
  {
    var x := a[0];
    if x == sep {
      SplitInTwo(a, sep, [[]], tail);
    } else {
      SplitInTwo(a, sep, [], [x] + tail);
      SplitOfPrepended(x, tail + b, sep);
      Regroup([x], tail, b);
    }
  }

  lemma DropFirst<T>(a: seq<T>, b: seq<T>)
    requires a != []
    ensures (a + b)[1..] == a[1..] + b
  {
  }

  lemma Regroup<T>(a: seq<T>, b: seq<T>, c: seq<T>)
    ensures a + b + c == a + (b + c)
  {
  }

  lemma SplitOfPrepended(x: byte, s: Bytes, sep: byte)
    ensures Split([x] + s, sep) == Prepend(x, Split(s, sep), sep)
  {
    assert ([x] + s)[1..] == s;
  }

  lemma CompleteGrows(a: Bytes, b: Bytes, sep: byte)
    ensures Complete(a + b, sep) == Complete(a, sep) + Complete(Tail(a, sep) + b, sep)
    ensures Tail(a + b, sep) == Tail(Tail(a, sep) + b, sep)
  {
    SplitGrows(a, b, sep);
  }
}
