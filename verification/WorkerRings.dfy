// The rings of credential checking, rate limiting and event subscriptions share
// one cache, and none of them can push out another's entries.
module WorkerRings {
  import opened Digest
  import opened DigestRuns
  import opened EventRuns
  import opened Events
  import opened RateLimit
  import opened RingCache
  import Queue = BoundedRing

  const NONCES := Domain(Ring("auth_nonce_seq", "auth_nonce_ring|", 65536), {"nonce|"}, false)

  function Domains(): seq<Domain> {
    [NONCES, COUNTS, USED, RATE, SubDomain(SUBSCRIPTIONS), MarkDomain(MARKS)]
  }

  lemma NoncesFit()
    ensures NONCES.WellFormed()
  {
    DifferAt("auth_nonce_seq", "auth_nonce_ring|", 11);
    DifferAt("auth_nonce_seq", "nonce|", 0);
    DifferAt("auth_nonce_ring|", "nonce|", 0);
  }

  lemma RateFits()
    ensures RATE.WellFormed()
  {
    DifferAt("rate_seq", "rate_ring|", 5);
    DifferAt("rate_seq", "rl|", 1);
    DifferAt("rate_ring|", "rl|", 1);
  }

  predicate StartsWith(d: Domain, letters: set<char>) {
    forall w :: w in d.Words() ==> w != "" && w[0] in letters
  }

  lemma DifferentLetters(d: Domain, e: Domain, a: set<char>, b: set<char>)
    requires StartsWith(d, a) && StartsWith(e, b) && a !! b
    ensures DisjointDomains(d, e) && DisjointDomains(e, d)
  {
    hide Incomparable;
    forall p, q | p in d.Words() && q in e.Words() ensures Incomparable(p, q) && Incomparable(q, p) {
      DifferAt(p, q, 0);
      DifferAt(q, p, 0);
    }
  }

  lemma NonceLetters()
    ensures StartsWith(NONCES, {'a', 'n'}) && StartsWith(COUNTS, {'n'})
  {
  }

  lemma UsedLetters()
    ensures StartsWith(USED, {'a', 'n', 'i'})
  {
  }

  lemma RateLetters()
    ensures StartsWith(RATE, {'r'})
  {
  }

  lemma EventLetters()
    ensures StartsWith(SubDomain(SUBSCRIPTIONS), {'e'}) && StartsWith(MarkDomain(MARKS), {'e'})
  {
  }

  lemma NoncesBesideCounts()
    ensures DisjointDomains(NONCES, COUNTS) && DisjointDomains(COUNTS, NONCES)
  {
    hide Incomparable;
    forall p, q | p in NONCES.Words() && q in COUNTS.Words() ensures Incomparable(p, q) && Incomparable(q, p) {
      var i := if p == "nonce|" then 5 else 0;
      DifferAt(p, q, i);
      DifferAt(q, p, i);
    }
  }

  lemma NoncesBesideUsed()
    ensures DisjointDomains(NONCES, USED) && DisjointDomains(USED, NONCES)
  {
    hide Incomparable;
    forall p, q | p in NONCES.Words() && q in USED.Words() ensures Incomparable(p, q) && Incomparable(q, p) {
      var i := if p[0] == q[0] then 5 else 0;
      DifferAt(p, q, i);
      DifferAt(q, p, i);
    }
  }

  lemma Symmetric(d: Domain, e: Domain)
    requires DisjointDomains(d, e)
    ensures DisjointDomains(e, d)
  {
    forall p, q | p in e.Words() && q in d.Words() ensures Incomparable(p, q) {
      assert Incomparable(q, p);
    }
  }

  lemma DomainsDisjoint(i: nat, j: nat)
    requires i < j < |Domains()|
    ensures DisjointDomains(Domains()[i], Domains()[j]) && DisjointDomains(Domains()[j], Domains()[i])
  {
    hide DisjointDomains, StartsWith;
    RateLetters();
    EventLetters();
    var d, e := Domains()[i], Domains()[j];
    if i == 0 && j == 1 {
      NoncesBesideCounts();
    } else if i == 0 && j == 2 {
      NoncesBesideUsed();
    } else if i == 1 && j == 2 {
      CountsAndUsedDisjoint();
      Symmetric(COUNTS, USED);
    } else if i == 4 {
      DomainsFit(SUBSCRIPTIONS, MARKS);
    } else {
      DifferentLetters(d, e, if i == 3 then {'r'} else {'a', 'n', 'i'}, if j == 3 then {'r'} else {'e'}) by {
        WiderLetters(d, i);
      }
    }
  }

  lemma WiderLetters(d: Domain, i: nat)
    requires i < 4 && d == Domains()[i]
    ensures StartsWith(d, if i == 3 then {'r'} else {'a', 'n', 'i'})
  {
    NonceLetters();
    UsedLetters();
    RateLetters();
    WidenLetters(NONCES, {'a', 'n'}, {'a', 'n', 'i'});
    WidenLetters(COUNTS, {'n'}, {'a', 'n', 'i'});
    hide StartsWith;
  }

  lemma WidenLetters(d: Domain, a: set<char>, b: set<char>)
    requires StartsWith(d, a) && a <= b
    ensures StartsWith(d, b)
  {
  }

  // All of them start empty and stay apart, whatever each writes: the live keys of
  // every ring are the queue of its own writes.
  lemma WorkerRingsApart(ws: seq<Write>, j: nat)
    requires Owned(Domains(), ws) && j < |Domains()|
    ensures AllSound(RunWrites(Shared(map[]), Domains(), ws), Domains())
    ensures forall k :: Domains()[j].Owns(k) ==>
      var live := RunWrites(Shared(map[]), Domains(), ws).Store();
      (k in live <==> k in Queue.FifoAll([], KeysOf(ws, j), Domains()[j].ring.capacity))
  {
    hide DisjointDomains, Domains, RunWrites, Owned, Queue.FifoAll;
    StartEmpty();
    EmptyCacheIsEmptyQueue(Domains()[j]) by { DomainsWellFormed(j); }
    RunIsQueue(Shared(map[]), Domains(), ws, j, []);
  }

  lemma DomainsWellFormed(i: nat)
    requires i < |Domains()|
    ensures Domains()[i].WellFormed()
  {
    NoncesFit();
    CountsWellFormed();
    UsedWellFormed();
    RateFits();
    DomainsFit(SUBSCRIPTIONS, MARKS);
  }

  lemma StartEmpty()
    ensures PairwiseDisjoint(Domains()) && AllSound(Shared(map[]), Domains())
  {
    hide DisjointDomains, Domains, Sound;
    forall i: nat, j: nat | i < |Domains()| && j < |Domains()| && i != j
      ensures DisjointDomains(Domains()[i], Domains()[j])
    {
      if i < j { DomainsDisjoint(i, j); } else { DomainsDisjoint(j, i); }
    }
    forall i: nat | i < |Domains()| ensures Sound(Shared(map[]), Domains()[i]) {
      DomainsWellFormed(i);
      EmptyCacheIsEmptyQueue(Domains()[i]);
    }
  }
}
