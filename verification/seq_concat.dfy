/** Concatenation of a sequence of blocks, the shape of every nested
    `push_back` loop in the cut compiler. */
module SeqConcat {

  function Concat<T>(blocks: seq<seq<T>>): seq<T>
    decreases |blocks|
  {
    if |blocks| == 0 then [] else blocks[0] + Concat(blocks[1..])
  }

  /** Appending one more block appends its elements at the end. */
  lemma {:induction false} ConcatSnoc<T>(blocks: seq<seq<T>>, b: seq<T>)
    ensures Concat(blocks + [b]) == Concat(blocks) + b
    decreases |blocks|
  {
    if |blocks| == 0 {
      assert blocks + [b] == [b];
      assert Concat([b]) == b + Concat([b][1..]);
    } else {
      assert (blocks + [b])[1..] == blocks[1..] + [b];
      ConcatSnoc(blocks[1..], b);
    }
  }

  /** Concatenation distributes over appending block lists. */
  lemma {:induction false} ConcatAppend<T>(a: seq<seq<T>>, b: seq<seq<T>>)
    ensures Concat(a + b) == Concat(a) + Concat(b)
    decreases |a|
  {
    if |a| > 0 {
      assert (a + b)[1..] == a[1..] + b;
      ConcatAppend(a[1..], b);
    } else {
      assert a + b == b;
    }
  }

  lemma ConcatPrefixStep<T>(blocks: seq<seq<T>>, i: int)
    requires 0 <= i < |blocks|
    ensures Concat(blocks[..i + 1]) == Concat(blocks[..i]) + blocks[i]
  {
    assert blocks[..i + 1] == blocks[..i] + [blocks[i]];
    ConcatSnoc(blocks[..i], blocks[i]);
  }

  lemma MulAtLeast(w: int, d: int)
    requires w > 0 && d >= 1
    ensures w * d >= w
  {
    var k := d - 1;
    assert w * d == w * k + w;
    assert w * k >= 0;
  }

  lemma DivModUnique(j: int, w: int, q: int, r: int)
    requires 0 <= r < w && j == w * q + r
    ensures j / w == q && j % w == r
  {
    var q', r' := j / w, j % w;
    assert j == w * q' + r' && 0 <= r' < w;
    if q' > q {
      MulAtLeast(w, q' - q);
    } else if q' < q {
      MulAtLeast(w, q - q');
    }
  }

  lemma DivModStep(j: int, w: int)
    requires 0 < w <= j
    ensures (j - w) / w == j / w - 1 && (j - w) % w == j % w
  {
    var q, r := j / w, j % w;
    assert j == w * q + r;
    assert j - w == w * (q - 1) + r;
    DivModUnique(j - w, w, q - 1, r);
  }

  lemma {:induction false} ConcatUniformLength<T>(blocks: seq<seq<T>>, w: nat)
    requires forall i :: 0 <= i < |blocks| ==> |blocks[i]| == w
    ensures |Concat(blocks)| == |blocks| * w
    decreases |blocks|
  {
    if |blocks| > 0 {
      ConcatUniformLength(blocks[1..], w);
      assert |blocks| * w == (|blocks| - 1) * w + w;
    }
  }

  lemma {:induction false} ConcatUniformAt<T>(blocks: seq<seq<T>>, w: nat, j: int)
    requires w > 0
    requires forall i :: 0 <= i < |blocks| ==> |blocks[i]| == w
    requires 0 <= j < |blocks| * w
    ensures |Concat(blocks)| == |blocks| * w
    ensures j / w < |blocks| && Concat(blocks)[j] == blocks[j / w][j % w]
    decreases |blocks|
  {
    ConcatUniformLength(blocks, w);
    var rest := blocks[1..];
    ConcatUniformLength(rest, w);
    assert |blocks| * w == |rest| * w + w;
    if j < w {
      DivModUnique(j, w, 0, j);
    } else {
      DivModStep(j, w);
      ConcatUniformAt(rest, w, j - w);
    }
  }

  /** When every block has w elements, element j of the concatenation is
      element j % w of block j / w. */
  lemma ConcatUniform<T>(blocks: seq<seq<T>>, w: nat)
    requires w > 0
    requires forall i :: 0 <= i < |blocks| ==> |blocks[i]| == w
    ensures |Concat(blocks)| == |blocks| * w
    ensures forall j :: 0 <= j < |blocks| * w ==> Concat(blocks)[j] == blocks[j / w][j % w]
  {
    ConcatUniformLength(blocks, w);
    forall j | 0 <= j < |blocks| * w
      ensures Concat(blocks)[j] == blocks[j / w][j % w]
    {
      ConcatUniformAt(blocks, w, j);
    }
  }

  /** Every element of the concatenation comes from some block, and every
      element of every block is in the concatenation. */
  lemma {:induction false} ConcatMembership<T>(blocks: seq<seq<T>>, x: T)
    ensures x in Concat(blocks) <==> exists i :: 0 <= i < |blocks| && x in blocks[i]
    decreases |blocks|
  {
    if |blocks| > 0 {
      ConcatMembership(blocks[1..], x);
      if x in Concat(blocks[1..]) {
        var i :| 0 <= i < |blocks[1..]| && x in blocks[1..][i];
        assert x in blocks[i + 1];
      }
      if exists i :: 0 <= i < |blocks| && x in blocks[i] {
        var i :| 0 <= i < |blocks| && x in blocks[i];
        if i > 0 {
          assert x in blocks[1..][i - 1];
        }
      }
    }
  }
}
