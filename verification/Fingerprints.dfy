/** A finding's identity (thresholds.py) and the server that can be read off it. */
module Fingerprints {

  const MAX_LENGTH: nat := 200

  function Cut(s: string): string { if |s| <= MAX_LENGTH then s else s[..MAX_LENGTH] }

  /** f"{server_name}|{category}|{metric}|{obj}"[:200] */
  function Fingerprint(server: string, category: string, metric: string, item: string): string {
    Cut(server + "|" + category + "|" + metric + "|" + item)
  }

  /** The text before the first bar. */
  function ServerOf(fp: string): string {
    if fp == "" || fp[0] == '|' then "" else [fp[0]] + ServerOf(fp[1..])
  }

  lemma {:induction false} BeforeTheBar(server: string, rest: string)
    requires '|' !in server && (rest == "" || rest[0] == '|')
    ensures ServerOf(server + rest) == server
  {
    if server == "" {
      assert server + rest == rest;
    } else {
      assert (server + rest)[1..] == server[1..] + rest;
      BeforeTheBar(server[1..], rest);
    }
  }

  lemma {:induction false} NoBarAndNoLonger(fp: string)
    ensures '|' !in ServerOf(fp) && |ServerOf(fp)| <= |fp|
  {
    if fp != "" && fp[0] != '|' { NoBarAndNoLonger(fp[1..]); }
  }

  /** A fingerprint identifies its server exactly when the server's name has no bar and fits. */
  lemma FingerprintNamesServer(server: string, category: string, metric: string, item: string)
    ensures ServerOf(Fingerprint(server, category, metric, item)) == server
            <==> '|' !in server && |server| <= 200
  {
    var rest := "|" + category + "|" + metric + "|" + item;
    var full := server + rest;
    assert full == server + "|" + category + "|" + metric + "|" + item;
    var fp := Cut(full);
    NoBarAndNoLonger(fp);
    if '|' !in server && |server| <= MAX_LENGTH {
      var kept := fp[|server|..];
      assert fp == server + kept;
      assert kept != "" ==> kept[0] == full[|server|] == '|';
      BeforeTheBar(server, kept);
    }
  }

  lemma UpToTheBar(a: string, rest: string, b: string, more: string)
    requires '|' !in a && '|' !in b && a + "|" + rest == b + "|" + more
    ensures a == b && rest == more
  {
    BeforeTheBar(a, "|" + rest);
    BeforeTheBar(b, "|" + more);
    assert a + ("|" + rest) == a + "|" + rest && b + ("|" + more) == b + "|" + more;
    assert rest == (a + "|" + rest)[|a| + 1..] && more == (b + "|" + more)[|b| + 1..];
  }

  datatype Parts = Parts(server: string, category: string, metric: string, item: string)

  function Joined(f: Parts): string { Fingerprint(f.server, f.category, f.metric, f.item) }

  predicate BarFree(f: Parts) { '|' !in f.server && '|' !in f.category && '|' !in f.metric }

  predicate AllFit(f: Parts) { |f.server| + |f.category| + |f.metric| + |f.item| + 3 <= 200 }

  lemma Uncut(f: Parts)
    requires AllFit(f)
    ensures Joined(f) == f.server + "|" + (f.category + "|" + (f.metric + "|" + f.item))
  {
    assert f.server + "|" + (f.category + "|" + (f.metric + "|" + f.item))
        == f.server + "|" + f.category + "|" + f.metric + "|" + f.item;
  }

  /** Findings whose parts have no bar, but for the item, and fit share a fingerprint exactly when all parts agree. */
  lemma SameFingerprintExactly(a: Parts, b: Parts)
    requires BarFree(a) && BarFree(b) && AllFit(a) && AllFit(b)
    ensures Joined(a) == Joined(b) <==> a == b
  {
    Uncut(a);
    Uncut(b);
    if Joined(a) == Joined(b) {
      UpToTheBar(a.server, a.category + "|" + (a.metric + "|" + a.item),
                 b.server, b.category + "|" + (b.metric + "|" + b.item));
      UpToTheBar(a.category, a.metric + "|" + a.item, b.category, b.metric + "|" + b.item);
      UpToTheBar(a.metric, a.item, b.metric, b.item);
    }
  }
}
