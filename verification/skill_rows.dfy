/** Editing the skills list before submission: the "Add" button's `addNewSkill`. */
module SkillRows {
  import opened Wrappers
  import opened Schema
  import opened Validator

  /** The row `addNewSkill` appends: an empty name at level 1. */
  const NewSkill: Skill := Skill("", 1)

  /** `append({ name: '', level: 1 })`: the list grows by one row at the end, the rest unchanged. */
  function AddNewSkill(skills: seq<Skill>): (r: seq<Skill>)
    ensures |r| == |skills| + 1
    ensures r[..|skills|] == skills
    ensures r[|skills|].name == "" && r[|skills|].level == 1
  {
    skills + [NewSkill]
  }

  /**
   * A freshly added row is refused on submit until it is given a name, its level
   * is accepted, and the rows already present are judged as before.
   */
  lemma NewRowNeedsName(x: FormValues, isEmail: string -> bool)
    ensures var v := Validate(x.(skills := AddNewSkill(x.skills)), isEmail);
            && v.Failure?
            && ErrorAt(v, SkillName(|x.skills|)) == Some("Skill name is required")
            && ErrorAt(v, SkillLevel(|x.skills|)) == None
            && (forall i :: 0 <= i < |x.skills| ==>
                  && ErrorAt(v, SkillName(i)) == ErrorAt(Validate(x, isEmail), SkillName(i))
                  && ErrorAt(v, SkillLevel(i)) == ErrorAt(Validate(x, isEmail), SkillLevel(i)))
  {
    var y := x.(skills := AddNewSkill(x.skills));
    var n := |x.skills|;
    SkillRowRules(y, isEmail, n);
    forall i | 0 <= i < n
      ensures ErrorAt(Validate(y, isEmail), SkillName(i)) == ErrorAt(Validate(x, isEmail), SkillName(i))
      ensures ErrorAt(Validate(y, isEmail), SkillLevel(i)) == ErrorAt(Validate(x, isEmail), SkillLevel(i))
    {
      SkillRowRules(y, isEmail, i);
      SkillRowRules(x, isEmail, i);
      assert y.skills[i] == x.skills[i];
    }
  }

  /** Adding rows to a list of one reaches the required count of two. */
  lemma AddingRowsReachesCount(x: FormValues, isEmail: string -> bool)
    requires |x.skills| == 1
    ensures ErrorAt(Validate(x, isEmail), SkillsField) == Some("You must have at least 2 skills")
    ensures ErrorAt(Validate(x.(skills := AddNewSkill(x.skills)), isEmail), SkillsField) == None
  {
    SkillCountRule(x, isEmail);
    SkillCountRule(x.(skills := AddNewSkill(x.skills)), isEmail);
  }
}
