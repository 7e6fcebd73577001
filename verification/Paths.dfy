/** Workload ids and the runtime paths made from them. */
module Paths {
  import opened Wrappers
  import opened Strings

  predicate IsSafeChar(c: char) {
    'a' <= c <= 'z' || 'A' <= c <= 'Z' || '0' <= c <= '9' || c == '_' || c == '-'
  }

  /** The pattern of accepted workload ids and backend tokens. */
  predicate IsValidId(id: string) {
    id != "" && forall c | c in id :: IsSafeChar(c)
  }

  function SanitizeWorkloadId(id: string): Option<string> {
    if IsValidId(id) then Some(id) else None
  }

  /** `filepath.Join` of these components: none of them is empty, "." or "..", so cleaning
      the joined path changes nothing. */
  function GetRuntimeDir(workloadId: string): Option<string> {
    match SanitizeWorkloadId(workloadId)
    case None => None
    case Some(id) => Some(Join(["var", "run", "schedune", id], '/'))
  }

  function GetControlSocketPath(workloadId: string, backend: string): Option<string> {
    match GetRuntimeDir(workloadId)
    case None => None
    case Some(dir) => if IsValidId(backend) then Some(Join([dir, backend + ".sock"], '/')) else None
  }

  /** The components of an accepted socket path are what it was made of. */
  lemma SocketPathParts(workloadId: string, backend: string)
    requires IsValidId(workloadId) && IsValidId(backend)
    ensures GetControlSocketPath(workloadId, backend) == Some(SocketPath("var", workloadId, backend + ".sock"))
    ensures Split(SocketPath("var", workloadId, backend + ".sock"), '/')
         == ["var", "run", "schedune", workloadId, backend + ".sock"]
  {
    var dir, sock := GetRuntimeDir(workloadId).value, backend + ".sock";
    JoinFour("var", "run", "schedune", workloadId);
    assert "var" + "/" + "run" + "/" + "schedune" + "/" == "var" + "/run/schedune/";
    assert dir == "var" + "/run/schedune/" + workloadId;
    assert [dir, sock][1..] == [sock];
    assert Join([dir, sock], '/') == dir + "/" + sock;
    SplitSocket(workloadId, sock, "var");
  }

  function SocketPath(head: string, workloadId: string, tail: string): string {
    head + "/run/schedune/" + workloadId + "/" + tail
  }

  lemma JoinFour(a: string, b: string, c: string, d: string)
    ensures Join([a, b, c, d], '/') == a + "/" + b + "/" + c + "/" + d
  {
    assert [c, d][1..] == [d];
    assert Join([c, d], '/') == c + "/" + d;
    assert [b, c, d][1..] == [c, d];
    assert Join([b, c, d], '/') == b + "/" + (c + "/" + d);
    assert [a, b, c, d][1..] == [b, c, d];
  }

  /** Any text with a socket path in it, cut at the slashes. */
  lemma SplitSocket(workloadId: string, tail: string, head: string)
    requires '/' !in workloadId && '/' !in tail && '/' !in head
    ensures Split(SocketPath(head, workloadId, tail), '/') == [head, "run", "schedune", workloadId, tail]
  {
    var run, schedune := "run", "schedune";
    assert '/' !in run && '/' !in schedune;
    assert "/run/schedune/" == ['/'] + run + ['/'] + schedune + ['/'];
    Regroup(head, run, schedune, workloadId, tail);
    SplitFive(head, run, schedune, workloadId, tail);
  }

  lemma SplitFive(a: string, b: string, c: string, d: string, e: string)
    requires '/' !in a && '/' !in b && '/' !in c && '/' !in d && '/' !in e
    ensures Split(a + ['/'] + (b + ['/'] + (c + ['/'] + (d + ['/'] + e))), '/') == [a, b, c, d, e]
  {
    SplitWhole(e, '/');
    SplitFirst(d, '/', e);
    SplitFirst(c, '/', d + ['/'] + e);
    SplitFirst(b, '/', c + ['/'] + (d + ['/'] + e));
    SplitFirst(a, '/', b + ['/'] + (c + ['/'] + (d + ['/'] + e)));
  }

  lemma Regroup(a: string, b: string, c: string, d: string, e: string)
    ensures a + (['/'] + b + ['/'] + c + ['/']) + d + ['/'] + e
         == a + ['/'] + (b + ['/'] + (c + ['/'] + (d + ['/'] + e)))
  {
  }

  /** Different workloads or backends never share a socket. */
  lemma SocketPathInjective(w1: string, b1: string, w2: string, b2: string)
    requires GetControlSocketPath(w1, b1).Some? && GetControlSocketPath(w2, b2).Some?
    requires GetControlSocketPath(w1, b1) == GetControlSocketPath(w2, b2)
    ensures w1 == w2 && b1 == b2
  {
    SocketPathParts(w1, b1);
    SocketPathParts(w2, b2);
    var s1, s2 := b1 + ".sock", b2 + ".sock";
    assert ["var", "run", "schedune", w1, s1][3] == ["var", "run", "schedune", w2, s2][3];
    assert ["var", "run", "schedune", w1, s1][4] == ["var", "run", "schedune", w2, s2][4];
    assert s1[..|b1|] == b1 && s2[..|b2|] == b2;
  }

  /** A path is produced exactly for a valid workload id and a valid backend token. */
  lemma SocketPathExists(workloadId: string, backend: string)
    ensures GetControlSocketPath(workloadId, backend).Some? <==> IsValidId(workloadId) && IsValidId(backend)
  {
  }
}
