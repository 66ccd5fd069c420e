/** How the known answers for SHA-1 are checked: a table of schedule words and one of working variables, word for
    word and round for round. */
module DigestTrace {
  import opened Basics
  import opened Sha1Spec

  function BlockWord(block: seq<byte>, i: nat): word
    requires |block| == 64 && i < 16
  {
    BigEndian(block[4 * i], block[4 * i + 1], block[4 * i + 2], block[4 * i + 3])
  }

  predicate Mixed(w: nat -> word, t: nat)
    requires t >= 16
  {
    Mix(w(t - 3), w(t - 8), w(t - 14), w(t - 16)) == w(t)
  }

  /** v(t + 4) is the first working variable before round t, and the four before it give the others. */
  predicate Rounded(v: nat -> word, w: nat -> word, t: nat) {
    Sum(Rotl(v(t + 4), 5), F(t, v(t + 3), Rotl(v(t + 2), 30), Rotl(v(t + 1), 30)), Rotl(v(t), 30), K(t), w(t))
    == v(t + 5)
  }

  predicate Traced(v: nat -> word, w: nat -> word) {
    && (forall t {:trigger Mixed(w, t)} :: 16 <= t < 80 ==> Mixed(w, t))
    && (forall t {:trigger Rounded(v, w, t)} :: 0 <= t < 80 ==> Rounded(v, w, t))
  }

  function Variables(v: nat -> word, t: nat): Hash {
    Hash(v(t + 4), v(t + 3), Rotl(v(t + 2), 30), Rotl(v(t + 1), 30), Rotl(v(t), 30))
  }

  lemma {:induction false} ScheduleIs(v: nat -> word, w: nat -> word, block: seq<byte>, t: nat)
    requires Traced(v, w) && |block| == 64 && t < 80
    requires forall i :: 0 <= i < 16 ==> BlockWord(block, i) == w(i)
    ensures Schedule(block, t) == w(t)
  {
    hide Mix, BigEndian, Rounded;
    if t < 16 {
      assert BlockWord(block, t) == w(t);
    } else {
      assert Mixed(w, t);
      ScheduleIs(v, w, block, t - 3);
      ScheduleIs(v, w, block, t - 8);
      ScheduleIs(v, w, block, t - 14);
      ScheduleIs(v, w, block, t - 16);
    }
  }

  lemma {:induction false} RoundsAre(v: nat -> word, w: nat -> word, block: seq<byte>, t: nat)
    requires Traced(v, w) && |block| == 64 && t <= 80
    requires forall i :: 0 <= i < 16 ==> BlockWord(block, i) == w(i)
    ensures Rounds(Variables(v, 0), block, t) == Variables(v, t)
  {
    hide Mixed, Rotl, F, K, Sum, BigEndian, Schedule;
    if t > 0 {
      RoundsAre(v, w, block, t - 1);
      ScheduleIs(v, w, block, t - 1);
      assert Rounded(v, w, t - 1);
    }
  }
}
