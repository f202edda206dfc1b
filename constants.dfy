/** The seed notices, the category labels and the two storage keys. */
module Constants {
  import opened Types

  /** Milliseconds in a day, eight hours and the third seed's offset. */
  const Day := 86400000
  const EightHours := 3600000 * 8
  const RecentOffset := 1000000

  /** Titles and contents of the three seed notices. */
  const HealthCheckTitle := "关于开展全警年度健康体检的通知"
  const HealthCheckContent := "为切实保障民辅警身体健康，分局决定于本月起分批次开展年度体检。请各单位按计划表组织人员前往指定医院。"
  const CounsellingTitle := "民警之家心理咨询预约通道开启"
  const CounsellingContent := "近期基层勤务较重，为缓解同志们心理压力，心理健康中心现开放一对一在线预约服务，保护隐私，竭诚服务。"
  const ShoppingTitle := "惠警购：专属生活优待政策更新"
  const ShoppingContent := "本季度新增3家签约合作商超，全体在职及离退休民辅警持有效证件可享受专属团购价格，详情点击查看清单。"

  /**
   * The three example notices shown when nothing is stored, stamped
   * relative to `now`. The module takes three clock reads while it loads,
   * one per notice; the model takes them as the single instant `now`.
   */
  function Seed(now: int): (r: seq<Notice>)
    ensures |r| == 3
  {
    [ Notice("1", HealthCheckTitle, HealthCheckContent, "健康关爱", now - Day * 1, "政治处"),
      Notice("2", CounsellingTitle, CounsellingContent, "心理疏导", now - EightHours, "心理中心"),
      Notice("3", ShoppingTitle, ShoppingContent, "生活福利", now - RecentOffset, "后勤保障部") ]
  }

  /** The category choices, in the order the create form offers them. */
  const DefaultCategories: seq<string> := ["健康关爱", "心理疏导", "生活福利", "荣誉激励", "家属优待"]

  /** Key of the serialized notice list in browser storage. */
  const StorageKey: string := "hjnj_app_data"

  /** Key of the serialized session in browser storage. */
  const AuthKey: string := "hjnj_auth_state"

  /** The seed has three notices with the pairwise distinct ids "1", "2", "3". */
  lemma SeedIds(now: int)
    ensures [Seed(now)[0].id, Seed(now)[1].id, Seed(now)[2].id] == ["1", "2", "3"]
    ensures forall i, j :: 0 <= i < j < |Seed(now)| ==> Seed(now)[i].id != Seed(now)[j].id
  {
  }

  /** Later seed entries are strictly newer. */
  lemma SeedTimesIncrease(now: int)
    ensures forall i, j :: 0 <= i < j < |Seed(now)| ==> Seed(now)[i].createdAt < Seed(now)[j].createdAt
  {
  }

  /** Every seed notice is filed under one of the offered categories. */
  lemma SeedCategoriesKnown(now: int)
    ensures forall n :: n in Seed(now) ==> n.category in DefaultCategories
  {
  }

  /** Five distinct labels, the first being the create form's default. */
  lemma CategoriesDistinct()
    ensures |DefaultCategories| == 5
    ensures DefaultCategories[0] == "健康关爱"
    ensures forall i, j :: 0 <= i < j < |DefaultCategories| ==> DefaultCategories[i] != DefaultCategories[j]
  {
    forall i, j | 0 <= i < j < |DefaultCategories|
      ensures DefaultCategories[i] != DefaultCategories[j]
    {
      assert DefaultCategories[i][0] != DefaultCategories[j][0];
    }
  }

  /** Writing the notice list never overwrites the session, nor the reverse. */
  lemma KeysDistinct()
    ensures StorageKey != AuthKey
  {
    assert StorageKey[6] != AuthKey[6];
  }
}
