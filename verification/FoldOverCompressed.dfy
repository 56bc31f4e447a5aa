/** Both levers at once: the fold works on the compressed view, which does not only grow. Bodies shrink as they
    leave the retained band and a note may stand at the end, so a pinned boundary holds only as far as the
    messages ahead of it have done their shrinking. */
module FoldOverCompressed {
  import opened JsonTree
  import opened Fold
  import opened Compress

  /** No message ahead of s shrinks between the shorter and the longer transcript. */
  predicate Settled(short: seq<Json>, long: seq<Json>, p: Policy, s: nat)
    requires s <= |short| <= |long|
  {
    p.enabled ==>
      forall k | Limit(short, p) <= k < Limit(long, p) && k < s :: ShrinkMessage(short[k], p).0 == short[k]
  }

  /** The views agree ahead of s exactly when everything there is settled. */
  lemma PrefixStands(short: seq<Json>, long: seq<Json>, p: Policy, s: nat)
    requires short <= long && s <= |short|
    ensures |Effective(short, p)| >= s && |Effective(long, p)| >= s
    ensures Effective(short, p)[..s] == Effective(long, p)[..s] <==> Settled(short, long, p, s)
    ensures s <= Limit(short, p) ==> Settled(short, long, p, s)
  {
    ViewPositions(short, p);
    ViewPositions(long, p);
    hide Effective, ShrinkMessage;
    var e, f := Effective(short, p), Effective(long, p);
    if e[..s] == f[..s] {
      forall k | Limit(short, p) <= k < Limit(long, p) && k < s && p.enabled
        ensures ShrinkMessage(short[k], p).0 == short[k]
      {
        assert e[..s][k] == f[..s][k];
      }
    }
    if Settled(short, long, p, s) {
      forall k | 0 <= k < s ensures e[k] == f[k] {
      }
    }
  }

  /** Shrinking hides no clean user turn and makes none. */
  lemma CleanStands(short: seq<Json>, long: seq<Json>, p: Policy, s: nat)
    requires short <= long && s < |short|
    ensures |Effective(short, p)| > s && |Effective(long, p)| > s
    ensures IsCleanUserTurn(Effective(short, p)[s]) == IsCleanUserTurn(Effective(long, p)[s])
  {
    CompressKeepsPairing(short, p);
    CompressKeepsPairing(long, p);
    hide Effective, IsCleanUserTurn;
    assert SamePairing(short[s], Effective(short, p)[s]) && SamePairing(long[s], Effective(long, p)[s]);
  }

  /** Freeze reuse with compression ahead of the fold. A boundary pinned on one turn's compressed view is reused
      on a later turn whenever what is ahead of it has settled and the tail cap allows, and then the rendered
      prefix is the same; when the digest tells prefixes apart it is reused only then. Ahead of the retained band
      everything has settled. */
  lemma CompressedReuse(short: seq<Json>, long: seq<Json>, p: Policy, cfg: Fold.Config, fz: Freeze)
    requires short <= long && Pinned(Effective(short, p), cfg, fz) && fz.frozenSplit < |short|
    ensures fz.frozenSplit <= Limit(short, p) ==> Settled(short, long, p, fz.frozenSplit)
    ensures var (e, f, s) := (Effective(short, p), Effective(long, p), fz.frozenSplit);
            && s < |f|
            && (Settled(short, long, p, s) ==>
                  && (Reusable(f, cfg, fz) <==> |f| - s <= TailCap(cfg, fz))
                  && ViewAt(f, cfg, s)[..2] == ViewAt(e, cfg, s)[..2])
            && ((cfg.digest(f[..s]) == cfg.digest(e[..s]) ==> f[..s] == e[..s]) ==>
                  (Reusable(f, cfg, fz) <==> Settled(short, long, p, s) && |f| - s <= TailCap(cfg, fz)))
  {
    var s := fz.frozenSplit;
    PrefixStands(short, long, p, s);
    CleanStands(short, long, p, s);
    hide Effective, IsCleanUserTurn, Settled, TailCap, UserText, AssistantText;
  }
}
