/** What the home screen shows for the seed notices. */
module Scenarios {
  import opened Types
  import opened Seqs
  import opened Constants
  import opened Projection

  /** Three notices with strictly increasing timestamps come out reversed. */
  lemma SortThreeIncreasing(a: Notice, b: Notice, c: Notice)
    requires a.createdAt < b.createdAt < c.createdAt
    ensures SortNewestFirst([a, b, c]) == [c, b, a]
  {
    SortOne(c);
    InsertBehindNewer(b, c);
    assert [b, c][1..] == [c];
    InsertBehindTwoNewer(a, b, c);
    assert [a, b, c][1..] == [b, c];
  }

  lemma SortOne(c: Notice)
    ensures SortNewestFirst([c]) == [c]
  {
    assert [c][1..] == [];
  }

  lemma InsertBehindNewer(b: Notice, c: Notice)
    requires b.createdAt < c.createdAt
    ensures Insert(b, [c]) == [c, b]
  {
    assert [c][1..] == [];
  }

  lemma InsertBehindTwoNewer(a: Notice, b: Notice, c: Notice)
    requires a.createdAt < b.createdAt < c.createdAt
    ensures Insert(a, [c, b]) == [c, b, a]
  {
    assert [c, b][1..] == [b];
    InsertBehindNewer(a, b);
  }

  /** With an empty search box the seed is listed newest first: ids 3, 2, 1. */
  lemma SeedListedNewestFirst(now: int)
    ensures Project(Seed(now), "") == [Seed(now)[2], Seed(now)[1], Seed(now)[0]]
    ensures |Project(Seed(now), "")| == 3
    ensures Project(Seed(now), "")[0].id == "3"
    ensures Project(Seed(now), "")[1].id == "2"
    ensures Project(Seed(now), "")[2].id == "1"
  {
    var s := Seed(now);
    SeedIds(now);
    SeedTimesIncrease(now);
    ProjectEmptyQuery(s);
    assert s == [s[0], s[1], s[2]];
    SortThreeIncreasing(s[0], s[1], s[2]);
  }

  /** The title of seed notice "1" contains "体检" (health check). */
  lemma CheckupInFirstTitle()
    ensures Contains(HealthCheckTitle, "体检")
  {
    assert "体检" <= HealthCheckTitle[10..];
  }

  // The character 检 occurs in no part of seed notices "2" and "3". The
  // solver cannot rule a character out of a fifty-character literal in one
  // step, so each long content is split into halves checked separately.

  lemma CounsellingHalves()
    ensures CounsellingContent == "近期基层勤务较重，为缓解同志们心理压力，" + "心理健康中心现开放一对一在线预约服务，保护隐私，竭诚服务。"
    ensures '检' !in "近期基层勤务较重，为缓解同志们心理压力，"
  {
  }

  lemma CounsellingSecondHalf()
    ensures '检' !in "心理健康中心现开放一对一在线预约服务，保护隐私，竭诚服务。"
  {
  }

  lemma ShoppingHalves()
    ensures ShoppingContent == "本季度新增3家签约合作商超，全体在职及离退休民辅警" + "持有效证件可享受专属团购价格，详情点击查看清单。"
    ensures '检' !in "本季度新增3家签约合作商超，全体在职及离退休民辅警"
  {
  }

  lemma ShoppingSecondHalf()
    ensures '检' !in "持有效证件可享受专属团购价格，详情点击查看清单。"
  {
  }

  lemma NotInConcat(c: char, a: string, b: string)
    requires c !in a && c !in b
    ensures c !in a + b
  {
  }

  /** Neither the title nor the content of seed notices "2" and "3" contains "体检". */
  lemma NoCheckupInOthers()
    ensures !Contains(CounsellingTitle, "体检") && !Contains(CounsellingContent, "体检")
    ensures !Contains(ShoppingTitle, "体检") && !Contains(ShoppingContent, "体检")
  {
    CounsellingHalves();
    CounsellingSecondHalf();
    NotInConcat('检', "近期基层勤务较重，为缓解同志们心理压力，", "心理健康中心现开放一对一在线预约服务，保护隐私，竭诚服务。");
    ShoppingHalves();
    ShoppingSecondHalf();
    NotInConcat('检', "本季度新增3家签约合作商超，全体在职及离退休民辅警", "持有效证件可享受专属团购价格，详情点击查看清单。");
    assert '检' !in CounsellingTitle && '检' !in ShoppingTitle;
    AbsentCharNotContained(CounsellingTitle, "体检", 1);
    AbsentCharNotContained(CounsellingContent, "体检", 1);
    AbsentCharNotContained(ShoppingTitle, "体检", 1);
    AbsentCharNotContained(ShoppingContent, "体检", 1);
  }

  /** Of three notices, when only the first matches, the projection is that notice alone. */
  lemma ProjectOnlyFirstMatches(a: Notice, b: Notice, c: Notice, q: string)
    requires Matches(a, q) && !Matches(b, q) && !Matches(c, q)
    ensures Project([a, b, c], q) == [a]
  {
    var p := (n: Notice) => Matches(n, q);
    KeepConcat([a], [b, c], p);
    KeepNone([b, c], p);
    assert [a, b, c] == [a] + [b, c];
    assert Filter([a, b, c], q) == [a];
    assert Insert(a, []) == [a];
  }

  /** Searching the seed for "体检" (health check) finds only notice "1". */
  lemma SeedSearchCheckup(now: int)
    ensures Project(Seed(now), "体检") == [Seed(now)[0]]
    ensures Project(Seed(now), "体检")[0].id == "1"
  {
    var s := Seed(now);
    CheckupInFirstTitle();
    NoCheckupInOthers();
    assert s == [s[0], s[1], s[2]];
    ProjectOnlyFirstMatches(s[0], s[1], s[2], "体检");
  }
}
