/**
 * Topic classification around the topic model (`classify_topic_and_score`,
 * `classify_topic`): the fixed subject and category tables, the default
 * values for ids the tables lack, and the clip-and-rescale of the raw
 * score. The model itself (forward pass, argmax over the subject logits)
 * is an oracle: its outputs arrive here as `subjectId` and `raw`.
 */
module Topic {
  import opened Rounding

  const UnknownSubject: string := "알 수 없음"
  const NoCategory: string := "없음"

  /** `subject_id2name`: 18 subjects, ids 0..18 except 4. */
  const SubjectNames: map<int, string> := map[
    0 := "미용", 1 := "스포츠/레저", 2 := "교육", 3 := "가족", 5 := "영화/만화",
    6 := "교통", 7 := "여행", 8 := "회사/아르바이트", 9 := "건강", 10 := "연애/결혼",
    11 := "게임", 12 := "계절/날씨", 13 := "방송/연예", 14 := "사회이슈",
    15 := "주거와 생활", 16 := "반려동물", 17 := "군대", 18 := "식음료"]

  /** `subject_to_main_category`: the shopping category of each subject. */
  const MainCategories: map<int, string> := map[
    0 := "뷰티", 1 := "레저/스포츠", 2 := "리빙/도서", 3 := "디지털/가전", 5 := "패션",
    6 := "디지털/가전", 7 := "레저/스포츠", 8 := "리빙/도서", 9 := "식품", 10 := "패션",
    11 := "디지털/가전", 12 := "식품", 13 := "패션", 14 := "리빙/도서",
    15 := "리빙/도서", 16 := "유아동/반려", 17 := "식품", 18 := "식품"]

  /** `category_to_file`: the product file of each of the 7 categories. */
  const CategoryFiles: map<string, string> := map[
    "뷰티" := "category_files/beauty.csv",
    "레저/스포츠" := "category_files/sport.csv",
    "리빙/도서" := "category_files/living.csv",
    "디지털/가전" := "category_files/digital.csv",
    "패션" := "category_files/fashion.csv",
    "식품" := "category_files/food.csv",
    "유아동/반려" := "category_files/baby.csv"]

  /** The ids both subject tables know. */
  predicate KnownSubject(id: int) {
    0 <= id <= 18 && id != 4
  }

  /** `subject_id2name.get(id, "알 수 없음")`. */
  function SubjectName(id: int): (name: string)
    ensures KnownSubject(id) ==> name in SubjectNames.Values
    ensures !KnownSubject(id) <==> name == UnknownSubject
  {
    if id in SubjectNames then SubjectNames[id] else UnknownSubject
  }

  /** `subject_to_main_category.get(id, "없음")`. */
  function MainCategory(id: int): (cat: string)
    ensures KnownSubject(id) <==> cat in CategoryFiles
    ensures !KnownSubject(id) <==> cat == NoCategory
  {
    if id in MainCategories then MainCategories[id] else NoCategory
  }

  /** Both subject tables cover exactly the same ids: 0..18 without 4. */
  lemma TablesCoverSameIds()
    ensures forall id :: id in SubjectNames <==> KnownSubject(id)
    ensures forall id :: id in MainCategories <==> KnownSubject(id)
  {
  }

  /** Every known subject's category has a product file, and every file's category is reached by some subject. */
  lemma CategoriesMatchFiles()
    ensures forall id :: id in MainCategories ==> MainCategories[id] in CategoryFiles
    ensures forall c :: c in CategoryFiles ==> exists id :: id in MainCategories && MainCategories[id] == c
  {
    forall c | c in CategoryFiles
      ensures exists id :: id in MainCategories && MainCategories[id] == c
    {
      var id := if c == "뷰티" then 0 else if c == "레저/스포츠" then 1 else if c == "리빙/도서" then 2
        else if c == "디지털/가전" then 3 else if c == "패션" then 5 else if c == "식품" then 9 else 16;
      assert MainCategories[id] == c;
    }
  }

  /** `max(min(raw, 2.0), -2.0)`. */
  function Clip(raw: real): (c: real)
    ensures -2.0 <= c <= 2.0
    ensures -2.0 <= raw <= 2.0 ==> c == raw
    ensures raw > 2.0 ==> c == 2.0
    ensures raw < -2.0 ==> c == -2.0
  {
    var upper := if raw < 2.0 then raw else 2.0;
    if upper > -2.0 then upper else -2.0
  }

  /** `(clip + 2.0) / 4.0 * 8`: a score in [0, 8] (not the 0..5 a comment claims). */
  function TopicScore(raw: real): (s: real)
    ensures 0.0 <= s <= 8.0
  {
    (Clip(raw) + 2.0) / 4.0 * 8.0
  }

  /** Inside the clip window the score is the affine map 2 * (raw + 2); outside it saturates. */
  lemma TopicScoreShape(raw: real)
    ensures -2.0 <= raw <= 2.0 ==> TopicScore(raw) == 2.0 * (raw + 2.0)
    ensures raw >= 2.0 ==> TopicScore(raw) == 8.0
    ensures raw <= -2.0 ==> TopicScore(raw) == 0.0
  {
  }

  /** The score never decreases as the raw model output grows. */
  lemma TopicScoreMonotone(a: real, b: real)
    requires a <= b
    ensures TopicScore(a) <= TopicScore(b)
  {
  }

  /** The result of `classify_topic_and_score`. */
  datatype TopicResult = TopicResult(subject: string, category: string, score: real)

  /**
   * `classify_topic_and_score`: the subject and category of `classify_topic`,
   * and the score `round(TopicScore(raw), 2)`, which stays in [0, 8] and
   * within half a hundredth of the unrounded score.
   */
  function ClassifyTopicAndScore(subjectId: int, raw: real): (r: TopicResult)
    ensures (r.subject, r.category) == ClassifyTopic(subjectId)
    ensures 0.0 <= r.score <= 8.0
    ensures -0.005 <= r.score - TopicScore(raw) <= 0.005
  {
    Round2Between(TopicScore(raw), 0, 8);
    TopicResult(SubjectName(subjectId), MainCategory(subjectId), Round2(TopicScore(raw)))
  }

  /**
   * `classify_topic`: a known subject id gives its table name (never the
   * fallback) and a category that has a product file; any other id gives
   * exactly the fallback pair.
   */
  function ClassifyTopic(subjectId: int): (r: (string, string))
    ensures KnownSubject(subjectId) ==>
              && r.0 == SubjectNames[subjectId] && r.0 != UnknownSubject
              && r.1 == MainCategories[subjectId] && r.1 in CategoryFiles
    ensures !KnownSubject(subjectId) <==> r == (UnknownSubject, NoCategory)
  {
    (SubjectName(subjectId), MainCategory(subjectId))
  }

  /** Id 4 (absent from the tables) and id 19 (the model's last output) fall back to the defaults. */
  lemma MissingIdsFallBack()
    ensures ClassifyTopic(4) == (UnknownSubject, NoCategory)
    ensures ClassifyTopic(19) == (UnknownSubject, NoCategory)
    ensures NoCategory !in CategoryFiles
  {
  }
}
