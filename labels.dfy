/** The label namespaces and annotation keys of the nfd v1alpha1 API. */
module Labels {

  /** The (default) namespace for feature labels. */
  const FeatureLabelNs: string := "feature.node.kubernetes.io"

  /** Suffix of the allowed feature label sub-namespaces. */
  const FeatureLabelSubNsSuffix: string := "." + FeatureLabelNs

  /** The namespace for profile labels. */
  const ProfileLabelNs: string := "profile.node.kubernetes.io"

  /** Suffix of the allowed profile label sub-namespaces. */
  const ProfileLabelSubNsSuffix: string := "." + ProfileLabelNs

  /** The namespace of all NFD annotations. */
  const AnnotationNs: string := "nfd.node.kubernetes.io"

  const ExtendedResourceAnnotation: string := AnnotationNs + "/extended-resources"
  const FeatureLabelsAnnotation: string := AnnotationNs + "/feature-labels"
  const MasterVersionAnnotation: string := AnnotationNs + "/master.version"
  const WorkerVersionAnnotation: string := AnnotationNs + "/worker.version"

  predicate HasPrefix(s: string, prefix: string)
  {
    |prefix| <= |s| && s[..|prefix|] == prefix
  }

  predicate HasSuffix(s: string, suffix: string)
  {
    |suffix| <= |s| && s[|s| - |suffix|..] == suffix
  }

  /** The name part of an annotation key in the NFD annotation namespace. */
  function AnnotationName(key: string): (name: string)
    requires HasPrefix(key, AnnotationNs + "/")
    ensures AnnotationNs + "/" + name == key
  {
    key[|AnnotationNs| + 1..]
  }

  /** Each sub-namespace suffix is a dot followed by its namespace. */
  lemma SubNsSuffixes()
    ensures |FeatureLabelSubNsSuffix| == |FeatureLabelNs| + 1
    ensures FeatureLabelSubNsSuffix[0] == '.' && FeatureLabelSubNsSuffix[1..] == FeatureLabelNs
    ensures |ProfileLabelSubNsSuffix| == |ProfileLabelNs| + 1
    ensures ProfileLabelSubNsSuffix[0] == '.' && ProfileLabelSubNsSuffix[1..] == ProfileLabelNs
  {
  }

  /** A sub-namespace `sub + "." + ns` ends with the sub-namespace suffix of
      `ns`, but `ns` itself never does: the suffix is longer than it. */
  lemma {:induction false} SubNamespaceSuffix(ns: string, sub: string)
    ensures HasSuffix(sub + "." + ns, "." + ns)
    ensures |"." + ns| > |ns| && !HasSuffix(ns, "." + ns)
  {
    var s := sub + "." + ns;
    assert s[|s| - |"." + ns|..] == "." + ns;
  }

  /** The bare namespaces do not end with their own sub-namespace suffixes. */
  lemma NamespacesAreNotSubNamespaces()
    ensures !HasSuffix(FeatureLabelNs, FeatureLabelSubNsSuffix)
    ensures !HasSuffix(ProfileLabelNs, ProfileLabelSubNsSuffix)
  {
    SubNamespaceSuffix(FeatureLabelNs, "");
    SubNamespaceSuffix(ProfileLabelNs, "");
  }

  /** Every annotation key lies in the NFD annotation namespace, and its name
      part is the one the key was built from. */
  lemma AnnotationKeysInNamespace()
    ensures HasPrefix(ExtendedResourceAnnotation, AnnotationNs + "/")
    ensures HasPrefix(FeatureLabelsAnnotation, AnnotationNs + "/")
    ensures HasPrefix(MasterVersionAnnotation, AnnotationNs + "/")
    ensures HasPrefix(WorkerVersionAnnotation, AnnotationNs + "/")
    ensures AnnotationName(ExtendedResourceAnnotation) == "extended-resources"
    ensures AnnotationName(FeatureLabelsAnnotation) == "feature-labels"
    ensures AnnotationName(MasterVersionAnnotation) == "master.version"
    ensures AnnotationName(WorkerVersionAnnotation) == "worker.version"
  {
  }

  /** The four annotation keys are pairwise distinct. */
  lemma AnnotationKeysDistinct()
    ensures ExtendedResourceAnnotation != FeatureLabelsAnnotation
    ensures ExtendedResourceAnnotation != MasterVersionAnnotation
    ensures ExtendedResourceAnnotation != WorkerVersionAnnotation
    ensures FeatureLabelsAnnotation != MasterVersionAnnotation
    ensures FeatureLabelsAnnotation != WorkerVersionAnnotation
    ensures MasterVersionAnnotation != WorkerVersionAnnotation
  {
    var n := |AnnotationNs| + 1;
    assert ExtendedResourceAnnotation[n] == 'e';
    assert FeatureLabelsAnnotation[n] == 'f';
    assert MasterVersionAnnotation[n] == 'm';
    assert WorkerVersionAnnotation[n] == 'w';
  }
}
