/** The label tables of the Harvard-Oxford max-probability atlases
    (data-preparation/harvard_oxford_atlas/harvard_oxford_2mm_processor.py:12-89):
    the cortical atlas has labels 0..48, the subcortical atlas 0..23, and
    label 0 is the background in both. */
module HarvardOxfordLabels {
  /** CORTICAL_REGIONS: label `i` is named `CorticalNames[i]`; keys run 0..48 in order. */
  const CorticalNames: seq<string> := [
    "Background", "Frontal Pole", "Insular Cortex", "Superior Frontal Gyrus",
    "Middle Frontal Gyrus", "Inferior Frontal Gyrus, pars triangularis",
    "Inferior Frontal Gyrus, pars opercularis", "Precentral Gyrus", "Temporal Pole",
    "Superior Temporal Gyrus, anterior division", "Superior Temporal Gyrus, posterior division",
    "Middle Temporal Gyrus, anterior division", "Middle Temporal Gyrus, posterior division",
    "Middle Temporal Gyrus, temporooccipital part", "Inferior Temporal Gyrus, anterior division",
    "Inferior Temporal Gyrus, posterior division", "Inferior Temporal Gyrus, temporooccipital part",
    "Postcentral Gyrus", "Superior Parietal Lobule", "Supramarginal Gyrus, anterior division",
    "Supramarginal Gyrus, posterior division", "Angular Gyrus",
    "Lateral Occipital Cortex, superior division", "Lateral Occipital Cortex, inferior division",
    "Intracalcarine Cortex", "Frontal Medial Cortex",
    "Juxtapositional Lobule Cortex (formerly Supplementary Motor Cortex)", "Subcallosal Cortex",
    "Paracingulate Gyrus", "Cingulate Gyrus, anterior division", "Cingulate Gyrus, posterior division",
    "Precuneous Cortex", "Cuneal Cortex", "Frontal Orbital Cortex",
    "Parahippocampal Gyrus, anterior division", "Parahippocampal Gyrus, posterior division",
    "Lingual Gyrus", "Temporal Fusiform Cortex, anterior division",
    "Temporal Fusiform Cortex, posterior division", "Temporal Occipital Fusiform Cortex",
    "Occipital Fusiform Gyrus", "Frontal Operculum Cortex", "Central Opercular Cortex",
    "Parietal Operculum Cortex", "Planum Polare", "Heschl's Gyrus (includes H1 and H2)",
    "Planum Temporale", "Supracalcarine Cortex", "Occipital Pole"
  ]

  /** SUBCORTICAL_REGIONS: label `i` is named `SubcorticalNames[i]`; keys run 0..23 in order. */
  const SubcorticalNames: seq<string> := [
    "Background", "Left Cerebral White Matter", "Left Cerebral Cortex", "Left Lateral Ventricle",
    "Left Thalamus", "Left Caudate", "Left Putamen", "Left Pallidum", "3rd Ventricle",
    "4th Ventricle", "Brain Stem", "Left Hippocampus", "Left Amygdala", "Left Accumbens",
    "Right Cerebral White Matter", "Right Cerebral Cortex", "Right Lateral Ventricle",
    "Right Thalamus", "Right Caudate", "Right Putamen", "Right Pallidum", "Right Hippocampus",
    "Right Amygdala", "Right Accumbens"
  ]

  lemma LabelCounts()
    ensures |CorticalNames| == 49 && |SubcorticalNames| == 24
  {
  }

  /** `v > 0 and v in CORTICAL_REGIONS`. */
  predicate IsCorticalLabel(v: int)
  {
    0 < v < |CorticalNames|
  }

  /** `v > 0 and v in SUBCORTICAL_REGIONS`. */
  predicate IsSubcorticalLabel(v: int)
  {
    0 < v < |SubcorticalNames|
  }
}
