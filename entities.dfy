/**
 * The seven decoded entity records and the document that holds them
 * (the structs of the pkg/fgodata entity files and of bin/main.go, which are identical).
 * Every collection is keyed by the integer id the document assigns.
 */
module Entities {

  datatype Servant = Servant(name: string, rarity: int, icon: string, classId: int)

  datatype Class = Class(name: string, icon: string)

  /** `order` is stored in the column `position` of the materials table. */
  datatype Material = Material(name: string, icon: string, order: int)

  datatype SkillLevel = SkillLevel(levelTo: int, servantId: int)

  datatype AscensionLevel = AscensionLevel(ascendTo: int, servantId: int)

  datatype SkillCost = SkillCost(skillLevelId: int, materialId: int, amount: int)

  datatype AscensionCost = AscensionCost(ascensionLevelId: int, materialId: int, amount: int)

  /** The value of an `FgoData` document: seven integer-keyed maps. */
  datatype Collections = Collections(
    servants: map<int, Servant>,
    classes: map<int, Class>,
    materials: map<int, Material>,
    ascensionLevels: map<int, AscensionLevel>,
    ascensionCosts: map<int, AscensionCost>,
    skillLevels: map<int, SkillLevel>,
    skillCosts: map<int, SkillCost>)

  /** The referential-integrity invariant the cleaner establishes: every level belongs to a known servant. */
  predicate LevelsOwned(d: Collections) {
    && (forall k :: k in d.skillLevels ==> d.skillLevels[k].servantId in d.servants)
    && (forall k :: k in d.ascensionLevels ==> d.ascensionLevels[k].servantId in d.servants)
  }
}
