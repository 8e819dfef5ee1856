/** The unique-slug hook run before a product is saved (src/models/Product.js:24-37).
    `slugify` is library code outside this model: it is a parameter, and the allocator works
    from the base token it returns. */
module Slug {
  import opened Common
  import opened Decimal

  /** The k-th name the hook probes: `base` itself, then `base-1`, `base-2`, ... */
  function Candidate(base: string, k: nat): string
  {
    if k == 0 then base else base + "-" + NatToDecimal(k)
  }

  /** Different probe numbers give different candidates. */
  lemma CandidateInjective(base: string, i: nat, j: nat)
    ensures Candidate(base, i) == Candidate(base, j) ==> i == j
  {
    if i != 0 && j != 0 && Candidate(base, i) == Candidate(base, j) {
      var n := |base| + 1;
      assert Candidate(base, i)[n..] == NatToDecimal(i);
      assert Candidate(base, j)[n..] == NatToDecimal(j);
      NatToDecimalInjective(i, j);
    }
  }

  /** The first k candidates, as a set. */
  function Probed(base: string, k: nat): (r: set<string>)
    ensures forall j: nat :: Candidate(base, j) in r <==> j < k
    ensures |r| == k
  {
    if k == 0 then {}
    else
      var prev := Probed(base, k - 1);
      assert forall j: nat :: Candidate(base, j) == Candidate(base, k - 1) ==> j == k - 1 by {
        forall j: nat ensures Candidate(base, j) == Candidate(base, k - 1) ==> j == k - 1 {
          CandidateInjective(base, j, k - 1);
        }
      }
      prev + {Candidate(base, k - 1)}
  }

  lemma SubsetCard<T>(a: set<T>, b: set<T>)
    requires a <= b
    ensures |a| <= |b|
  {
    if a != {} {
      var x :| x in a;
      SubsetCard(a - {x}, b - {x});
    }
  }

  /** The first free candidate number at or after k, when all candidates before k are taken.
      It exists because the candidates are pairwise distinct and `taken` is finite. */
  function FirstFreeFrom(base: string, taken: set<string>, k: nat): (r: nat)
    requires Probed(base, k) <= taken
    ensures k <= r <= |taken|
    ensures Candidate(base, r) !in taken && Probed(base, r) <= taken
    decreases |taken| - k
  {
    SubsetCard(Probed(base, k), taken);
    if Candidate(base, k) !in taken then k
    else FirstFreeFrom(base, taken, k + 1)
  }

  /** The slug the hook settles on for `base` against the slugs already stored. */
  function AllocatedSlug(base: string, taken: set<string>): (slug: string)
    ensures slug !in taken
    ensures base !in taken ==> slug == base
    ensures exists k: nat :: slug == Candidate(base, k) && Probed(base, k) <= taken
  {
    Candidate(base, FirstFreeFrom(base, taken, 0))
  }

  /** The least free candidate number is the only one whose predecessors are all taken. */
  lemma FirstFreeIsLeast(base: string, taken: set<string>, k: nat)
    requires Probed(base, k) <= taken && Candidate(base, k) !in taken
    ensures FirstFreeFrom(base, taken, 0) == k
    ensures AllocatedSlug(base, taken) == Candidate(base, k)
  {
  }

  /** The probe loop: try `base`, then `base-1`, `base-2`, ... until a name is not stored. */
  method AllocateSlug(base: string, taken: set<string>) returns (slug: string)
    ensures slug !in taken
    ensures base !in taken ==> slug == base
    ensures slug == AllocatedSlug(base, taken)
  {
    slug := base;
    var count: nat := 1;
    while slug in taken
      invariant count >= 1
      invariant slug == Candidate(base, count - 1)
      invariant Probed(base, count - 1) <= taken
      decreases |taken| - (count - 1)
    {
      SubsetCard(Probed(base, count), taken);
      slug := base + "-" + NatToDecimal(count);
      count := count + 1;
    }
    FirstFreeIsLeast(base, taken, count - 1);
  }

  /** The `pre("save")` hook: the slug is recomputed only when `name` was modified. */
  method PreSaveSlug(nameModified: bool, name: string, slugify: string -> string, currentSlug: Option<string>, taken: set<string>)
    returns (slug: Option<string>)
    ensures !nameModified ==> slug == currentSlug
    ensures nameModified ==> slug.Some? && slug.value !in taken
    ensures nameModified ==> slug == Some(AllocatedSlug(slugify(name), taken))
  {
    if !nameModified {
      return currentSlug;
    }
    var baseSlug := slugify(name);
    var s := AllocateSlug(baseSlug, taken);
    slug := Some(s);
  }

  /** Slugs handed out by `n` successive saves with the same base, each stored before the next. */
  function AllocateMany(base: string, taken: set<string>, n: nat): (r: seq<string>)
    ensures |r| == n
    decreases n
  {
    if n == 0 then []
    else
      var s := AllocatedSlug(base, taken);
      [s] + AllocateMany(base, taken + {s}, n - 1)
  }

  /** No stored slug belongs to the family of `base`. */
  ghost predicate NoFamily(base: string, taken: set<string>)
  {
    forall k: nat :: Candidate(base, k) !in taken
  }

  /** One save: with the first m candidates taken, the next save takes candidate m. */
  lemma AllocateManyStep(base: string, others: set<string>, m: nat, n: nat)
    requires NoFamily(base, others) && n > 0
    ensures AllocateMany(base, others + Probed(base, m), n)
         == [Candidate(base, m)] + AllocateMany(base, others + Probed(base, m + 1), n - 1)
  {
    var taken := others + Probed(base, m);
    FirstFreeIsLeast(base, taken, m);
    assert taken + {Candidate(base, m)} == others + Probed(base, m + 1);
  }

  lemma {:induction false} AllocateManyFrom(base: string, others: set<string>, m: nat, n: nat)
    requires NoFamily(base, others)
    ensures forall i :: 0 <= i < n ==> AllocateMany(base, others + Probed(base, m), n)[i] == Candidate(base, m + i)
    decreases n
  {
    if n > 0 {
      var r := AllocateMany(base, others + Probed(base, m), n);
      var rest := AllocateMany(base, others + Probed(base, m + 1), n - 1);
      AllocateManyStep(base, others, m, n);
      AllocateManyFrom(base, others, m + 1, n - 1);
      forall i | 0 <= i < n
        ensures r[i] == Candidate(base, m + i)
      {
        if i > 0 {
          assert r[i] == rest[i - 1];
          assert m + 1 + (i - 1) == m + i;
        }
      }
    }
  }

  /** Saving `n` products with the same base into a collection holding none of its family
      yields `base`, `base-1`, ..., `base-(n-1)`, in that order. */
  lemma AllocateSequence(base: string, others: set<string>, n: nat)
    requires NoFamily(base, others)
    ensures forall i: nat :: i < n ==> AllocateMany(base, others, n)[i] == Candidate(base, i)
  {
    assert others + Probed(base, 0) == others;
    AllocateManyFrom(base, others, 0, n);
  }

  /** Three products named "Red T-Shirt" (base "red-t-shirt") saved into an empty collection. */
  lemma RedTShirtExample()
    ensures AllocateMany("red-t-shirt", {}, 3) == ["red-t-shirt", "red-t-shirt-1", "red-t-shirt-2"]
  {
    var r := AllocateMany("red-t-shirt", {}, 3);
    AllocateSequence("red-t-shirt", {}, 3);
    assert DigitChar(1) == '1' && DigitChar(2) == '2';
    assert r[0] == Candidate("red-t-shirt", 0) == "red-t-shirt";
    assert r[1] == Candidate("red-t-shirt", 1) == "red-t-shirt-1";
    assert r[2] == Candidate("red-t-shirt", 2) == "red-t-shirt-2";
  }
}
