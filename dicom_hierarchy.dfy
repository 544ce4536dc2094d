/**
 * The patient -> study -> series -> instance catalog. Each level is a map
 * keyed by the identifier of the child; adding an object either creates the
 * child from the object or descends into the existing one. A level is owned by
 * the map above it, so each level is a value and an update in place of a child
 * is an update of the parent's map.
 *
 * Every `unwrap` of a missing element panics; the predicates `Can...` collect
 * the elements each step unwraps, and are the preconditions of that step.
 */
module Hierarchy {
  import opened Wrappers
  import opened DicomObjects

  datatype Instance = Instance(instanceNumber: u16, image: Pixels)

  datatype Series = Series(
    instances: map<string, Instance>,
    seriesNumber: u16,
    seriesDate: string,
    seriesTime: string,
    modality: string,
    bodyPartExamined: string)
  {
    /** The series metadata, everything except the instances. */
    predicate SameMetadata(other: Series) {
      && seriesNumber == other.seriesNumber
      && seriesDate == other.seriesDate
      && seriesTime == other.seriesTime
      && modality == other.modality
      && bodyPartExamined == other.bodyPartExamined
    }

    /** `add_instance`: stores the instance under its SOP instance UID, replacing one already there. */
    function AddInstance(obj: DicomObject): (r: Series)
      requires CanCreateInstance(obj)
      ensures r.instances.Keys == instances.Keys + {obj.sopInstanceUid.value}
      ensures r.instances[obj.sopInstanceUid.value] == NewInstance(obj)
      ensures forall k :: k in instances && k != obj.sopInstanceUid.value ==> r.instances[k] == instances[k]
      ensures SameMetadata(r)
    {
      this.(instances := instances[obj.sopInstanceUid.value := NewInstance(obj)])
    }

    /** A new SOP instance UID adds one instance; a known one replaces it and the count stays. */
    lemma AddInstanceCount(obj: DicomObject)
      requires CanCreateInstance(obj)
      ensures |AddInstance(obj).instances| ==
              if obj.sopInstanceUid.value in instances then |instances| else |instances| + 1
    {
      var sop := obj.sopInstanceUid.value;
      if sop !in instances {
        assert |instances.Keys + {sop}| == |instances.Keys| + 1;
      }
    }
  }

  datatype Study = Study(series: map<string, Series>)
  {
    predicate CanAddSeries(obj: DicomObject) {
      && obj.seriesInstanceUid.Some?
      && (if obj.seriesInstanceUid.value in series then CanCreateInstance(obj) else CanCreateSeries(obj))
    }

    /**
     * `add_series`: creates the series from the object, or adds the object's
     * instance to the existing series, whose metadata stays as it was.
     */
    function AddSeries(obj: DicomObject): (r: Study)
      requires CanAddSeries(obj)
      ensures var uid := obj.seriesInstanceUid.value;
        && r.series.Keys == series.Keys + {uid}
        && obj.sopInstanceUid.value in r.series[uid].instances
        && (uid in series ==> series[uid].SameMetadata(r.series[uid])
                              && series[uid].instances.Keys <= r.series[uid].instances.Keys)
        && (uid in series ==> r.series[uid] == series[uid].AddInstance(obj))
        && (uid !in series ==> r.series[uid] == NewSeries(obj))
        && (forall k :: k in series && k != uid ==> r.series[k] == series[k])
    {
      var uid := obj.seriesInstanceUid.value;
      if uid in series then Study(series[uid := series[uid].AddInstance(obj)])
      else Study(series[uid := NewSeries(obj)])
    }
  }

  datatype Patient = Patient(studies: map<string, Study>)
  {
    predicate CanAddStudy(obj: DicomObject) {
      && obj.studyInstanceUid.Some?
      && (if obj.studyInstanceUid.value in studies then studies[obj.studyInstanceUid.value].CanAddSeries(obj)
          else CanCreateStudy(obj))
    }

    /** `add_study`: creates the study from the object, or adds the object to the existing study. */
    function AddStudy(obj: DicomObject): (r: Patient)
      requires CanAddStudy(obj)
      ensures var uid := obj.studyInstanceUid.value;
        && r.studies.Keys == studies.Keys + {uid}
        && OnStudyPath(r.studies[uid], obj)
        && (uid in studies ==> StudyGrows(studies[uid], r.studies[uid]))
        && (uid in studies ==> r.studies[uid] == studies[uid].AddSeries(obj))
        && (uid !in studies ==> r.studies[uid] == NewStudy(obj))
        && (forall k :: k in studies && k != uid ==> r.studies[k] == studies[k])
    {
      var uid := obj.studyInstanceUid.value;
      if uid in studies then Patient(studies[uid := studies[uid].AddSeries(obj)])
      else Patient(studies[uid := NewStudy(obj)])
    }
  }

  predicate CanCreateInstance(obj: DicomObject) {
    obj.sopInstanceUid.Some? && obj.instanceNumber.Some? && obj.pixels.Some?
  }

  predicate CanCreateSeries(obj: DicomObject) {
    && obj.seriesNumber.Some? && obj.seriesDate.Some? && obj.seriesTime.Some?
    && obj.modality.Some? && obj.bodyPartExamined.Some?
    && CanCreateInstance(obj)
  }

  predicate CanCreateStudy(obj: DicomObject) {
    obj.seriesInstanceUid.Some? && CanCreateSeries(obj)
  }

  predicate CanCreatePatient(obj: DicomObject) {
    obj.studyInstanceUid.Some? && CanCreateStudy(obj)
  }

  /** `Instance::new`: the instance number and the decoded image. */
  function NewInstance(obj: DicomObject): (r: Instance)
    requires obj.instanceNumber.Some? && obj.pixels.Some?
    ensures r.instanceNumber == obj.instanceNumber.value && r.image == obj.pixels.value
  {
    Instance(obj.instanceNumber.value, obj.pixels.value)
  }

  /** `Series::new`: metadata from this object, then its one instance. */
  function NewSeries(obj: DicomObject): (r: Series)
    requires CanCreateSeries(obj)
    ensures r.instances.Keys == {obj.sopInstanceUid.value}
    ensures r.instances[obj.sopInstanceUid.value] == NewInstance(obj)
    ensures r.seriesNumber == obj.seriesNumber.value && r.seriesDate == obj.seriesDate.value
    ensures r.seriesTime == obj.seriesTime.value && r.modality == obj.modality.value
    ensures r.bodyPartExamined == obj.bodyPartExamined.value
  {
    var empty := Series(map[], obj.seriesNumber.value, obj.seriesDate.value, obj.seriesTime.value,
                        obj.modality.value, obj.bodyPartExamined.value);
    empty.AddInstance(obj)
  }

  /** `Study::new`: an empty study, then the object's series. */
  function NewStudy(obj: DicomObject): (r: Study)
    requires CanCreateStudy(obj)
    ensures r.series.Keys == {obj.seriesInstanceUid.value}
    ensures r.series[obj.seriesInstanceUid.value] == NewSeries(obj)
  {
    Study(map[]).AddSeries(obj)
  }

  /** `Patient::new`: an empty patient, then the object's study. */
  function NewPatient(obj: DicomObject): (r: Patient)
    requires CanCreatePatient(obj)
    ensures r.studies.Keys == {obj.studyInstanceUid.value}
    ensures r.studies[obj.studyInstanceUid.value] == NewStudy(obj)
  {
    Patient(map[]).AddStudy(obj)
  }

  /** The object's series and SOP instance UIDs lead to an instance of this study. */
  ghost predicate OnStudyPath(st: Study, obj: DicomObject)
    requires obj.seriesInstanceUid.Some? && obj.sopInstanceUid.Some?
  {
    obj.seriesInstanceUid.value in st.series
    && obj.sopInstanceUid.value in st.series[obj.seriesInstanceUid.value].instances
  }

  /** Every series and instance of `st` is still in `st2`, with its metadata. */
  ghost predicate StudyGrows(st: Study, st2: Study) {
    forall k :: k in st.series ==>
      && k in st2.series
      && st.series[k].SameMetadata(st2.series[k])
      && st.series[k].instances.Keys <= st2.series[k].instances.Keys
  }

  /** Where an instance sits in the catalog. */
  datatype InstancePath = InstancePath(patientId: string, studyUid: string, seriesUid: string, sopUid: string)

  ghost predicate IsInstancePath(patients: map<string, Patient>, p: InstancePath) {
    && p.patientId in patients
    && p.studyUid in patients[p.patientId].studies
    && p.seriesUid in patients[p.patientId].studies[p.studyUid].series
    && p.sopUid in patients[p.patientId].studies[p.studyUid].series[p.seriesUid].instances
  }

  function PathOf(obj: DicomObject): InstancePath
    requires obj.patientId.Some? && obj.studyInstanceUid.Some?
    requires obj.seriesInstanceUid.Some? && obj.sopInstanceUid.Some?
  {
    InstancePath(obj.patientId.value, obj.studyInstanceUid.value, obj.seriesInstanceUid.value, obj.sopInstanceUid.value)
  }

  predicate CanAddPatient(patients: map<string, Patient>, obj: DicomObject) {
    && obj.patientId.Some?
    && (if obj.patientId.value in patients then patients[obj.patientId.value].CanAddStudy(obj)
        else CanCreatePatient(obj))
  }

  /** The catalog after `add_patient`. */
  function WithPatient(patients: map<string, Patient>, obj: DicomObject): (r: map<string, Patient>)
    requires CanAddPatient(patients, obj)
    ensures obj.studyInstanceUid.Some? && obj.seriesInstanceUid.Some? && obj.sopInstanceUid.Some?
    ensures IsInstancePath(r, PathOf(obj))
    ensures r.Keys == patients.Keys + {obj.patientId.value}
    ensures obj.patientId.value !in patients ==> r[obj.patientId.value] == NewPatient(obj)
    ensures obj.patientId.value in patients ==> r[obj.patientId.value] == patients[obj.patientId.value].AddStudy(obj)
    ensures forall k :: k in patients && k != obj.patientId.value ==> r[k] == patients[k]
  {
    var pid := obj.patientId.value;
    if pid in patients then patients[pid := patients[pid].AddStudy(obj)]
    else patients[pid := NewPatient(obj)]
  }

  /** Adding an object never removes an instance already in the catalog. */
  lemma WithPatientKeepsPaths(patients: map<string, Patient>, obj: DicomObject, p: InstancePath)
    requires CanAddPatient(patients, obj)
    requires IsInstancePath(patients, p)
    ensures IsInstancePath(WithPatient(patients, obj), p)
  {
    var r := WithPatient(patients, obj);
    if p.patientId == obj.patientId.value {
      var st := patients[p.patientId].studies;
      var st2 := r[p.patientId].studies;
      if p.studyUid == obj.studyInstanceUid.value {
        assert StudyGrows(st[p.studyUid], st2[p.studyUid]);
      }
    }
  }

  /** Adding an object leaves the series metadata of every series already in the catalog as it was. */
  lemma WithPatientKeepsSeriesMetadata(patients: map<string, Patient>, obj: DicomObject,
                                       pid: string, sid: string, uid: string)
    requires CanAddPatient(patients, obj)
    requires pid in patients && sid in patients[pid].studies && uid in patients[pid].studies[sid].series
    ensures var r := WithPatient(patients, obj);
      && pid in r && sid in r[pid].studies && uid in r[pid].studies[sid].series
      && patients[pid].studies[sid].series[uid].SameMetadata(r[pid].studies[sid].series[uid])
  {
    var r := WithPatient(patients, obj);
    if pid == obj.patientId.value && sid == obj.studyInstanceUid.value {
      assert StudyGrows(patients[pid].studies[sid], r[pid].studies[sid]);
    }
  }

  /** The instance stored at a path of the catalog. */
  ghost function InstanceAt(patients: map<string, Patient>, p: InstancePath): Instance
    requires IsInstancePath(patients, p)
  {
    patients[p.patientId].studies[p.studyUid].series[p.seriesUid].instances[p.sopUid]
  }

  /** Adding an object stores its new instance at its path, replacing any instance there. */
  lemma WithPatientStoresInstance(patients: map<string, Patient>, obj: DicomObject)
    requires CanAddPatient(patients, obj)
    ensures IsInstancePath(WithPatient(patients, obj), PathOf(obj))
    ensures InstanceAt(WithPatient(patients, obj), PathOf(obj)) == NewInstance(obj)
  {
  }

  /** Adding an object leaves the instance at every other path of the catalog as it was. */
  lemma WithPatientKeepsOtherInstances(patients: map<string, Patient>, obj: DicomObject, p: InstancePath)
    requires CanAddPatient(patients, obj)
    requires IsInstancePath(patients, p) && p != PathOf(obj)
    ensures IsInstancePath(WithPatient(patients, obj), p)
    ensures InstanceAt(WithPatient(patients, obj), p) == InstanceAt(patients, p)
  {
    WithPatientKeepsPaths(patients, obj, p);
  }

  predicate CanCatalog(patients: map<string, Patient>, objs: seq<DicomObject>)
    decreases |objs|, 0
  {
    |objs| == 0
    || (CanCatalog(patients, objs[..|objs| - 1])
        && CanAddPatient(Catalog(patients, objs[..|objs| - 1]), objs[|objs| - 1]))
  }

  /** The catalog after adding `objs` one after the other. */
  function Catalog(patients: map<string, Patient>, objs: seq<DicomObject>): map<string, Patient>
    requires CanCatalog(patients, objs)
    decreases |objs|, 1
  {
    if |objs| == 0 then patients
    else WithPatient(Catalog(patients, objs[..|objs| - 1]), objs[|objs| - 1])
  }

  /** After adding a list of objects, each object's instance is in the catalog. */
  lemma {:induction false} CatalogHasEveryObject(patients: map<string, Patient>, objs: seq<DicomObject>, i: nat)
    requires CanCatalog(patients, objs)
    requires i < |objs|
    ensures objs[i].patientId.Some? && objs[i].studyInstanceUid.Some?
    ensures objs[i].seriesInstanceUid.Some? && objs[i].sopInstanceUid.Some?
    ensures IsInstancePath(Catalog(patients, objs), PathOf(objs[i]))
  {
    var last := |objs| - 1;
    var before := Catalog(patients, objs[..last]);
    if i < last {
      CatalogHasEveryObject(patients, objs[..last], i);
      WithPatientKeepsPaths(before, objs[last], PathOf(objs[i]));
    }
  }

  class DicomHierarchy {
    var patients: map<string, Patient>

    constructor ()
      ensures patients == map[]
    {
      patients := map[];
    }

    /** `add_patient`: creates the patient from the object, or adds the object to the existing patient. */
    method AddPatient(obj: DicomObject)
      requires CanAddPatient(patients, obj)
      modifies this
      ensures patients == WithPatient(old(patients), obj)
    {
      var pid := obj.patientId.value;
      if pid !in patients {
        var patient := NewPatient(obj);
        patients := patients[pid := patient];
        return;
      }
      var patient := patients[pid].AddStudy(obj);
      patients := patients[pid := patient];
    }

    /** Patient `pid` has a study `sid` holding a series under the key `uid`. */
    ghost predicate SeriesAt(pid: string, sid: string, uid: string)
      reads this
    {
      pid in patients && sid in patients[pid].studies && uid in patients[pid].studies[sid].series
    }

    /** `get_series_by_instance_uid`: a series stored under `uid` in any study of any patient. */
    method GetSeriesByInstanceUid(uid: string) returns (r: Option<Series>)
      ensures r.Some? <==> exists pid, sid :: SeriesAt(pid, sid, uid)
      ensures r.Some? ==> exists pid, sid :: SeriesAt(pid, sid, uid) && r.value == patients[pid].studies[sid].series[uid]
    {
      var todo := patients.Keys;
      while todo != {}
        invariant todo <= patients.Keys
        invariant forall pid, sid :: pid in patients && pid !in todo ==> !SeriesAt(pid, sid, uid)
        decreases todo
      {
        var pid :| pid in todo;
        var studies := patients[pid].studies;
        var todoStudies := studies.Keys;
        while todoStudies != {}
          invariant todoStudies <= studies.Keys
          invariant forall sid :: sid in studies && sid !in todoStudies ==> !SeriesAt(pid, sid, uid)
          decreases todoStudies
        {
          var sid :| sid in todoStudies;
          if uid in studies[sid].series {
            assert SeriesAt(pid, sid, uid);
            return Some(studies[sid].series[uid]);
          }
          todoStudies := todoStudies - {sid};
        }
        todo := todo - {pid};
      }
      return None;
    }

    /** `get_all_images`: one image for each instance of the catalog, in unspecified order. */
    method GetAllImages() returns (images: seq<Pixels>, ghost paths: seq<InstancePath>)
      ensures |images| == |paths|
      ensures Distinct(paths)
      ensures forall p :: p in paths <==> IsInstancePath(patients, p)
      ensures forall i :: 0 <= i < |paths| ==>
        && IsInstancePath(patients, paths[i])
        && images[i] == ImageAt(patients, paths[i])
      ensures forall i :: 0 <= i < |images| ==> IsCatalogImage(patients, images[i])
    {
      images, paths := [], [];
      var todo := patients.Keys;
      while todo != {}
        invariant todo <= patients.Keys
        invariant |images| == |paths| && Distinct(paths)
        invariant forall p :: p in paths <==> IsInstancePath(patients, p) && p.patientId !in todo
        invariant forall i :: 0 <= i < |paths| ==>
          && IsInstancePath(patients, paths[i])
          && images[i] == ImageAt(patients, paths[i])
        decreases todo
      {
        var pid :| pid in todo;
        var more; ghost var morePaths;
        more, morePaths := CollectPatient(pid, patients[pid]);
        DistinctAppend(paths, morePaths);
        images, paths := images + more, paths + morePaths;
        todo := todo - {pid};
      }
      forall i | 0 <= i < |images|
        ensures IsCatalogImage(patients, images[i])
      {
        assert IsInstancePath(patients, paths[i]) && images[i] == ImageAt(patients, paths[i]);
      }
    }
  }

  ghost predicate Distinct<T>(s: seq<T>) {
    forall i, j :: 0 <= i < j < |s| ==> s[i] != s[j]
  }

  lemma DistinctAppend<T>(a: seq<T>, b: seq<T>)
    requires Distinct(a) && Distinct(b)
    requires forall x :: x in a ==> x !in b
    ensures Distinct(a + b)
  {
    forall i, j | 0 <= i < j < |a + b|
      ensures (a + b)[i] != (a + b)[j]
    {
      if i < |a| && j >= |a| {
        assert (a + b)[i] in a && (a + b)[j] == b[j - |a|];
      }
    }
  }

  /** The image of some instance of the catalog. */
  ghost predicate IsCatalogImage(patients: map<string, Patient>, image: Pixels) {
    exists p :: IsInstancePath(patients, p) && image == ImageAt(patients, p)
  }

  function ImageAt(patients: map<string, Patient>, p: InstancePath): Pixels
    requires IsInstancePath(patients, p)
  {
    patients[p.patientId].studies[p.studyUid].series[p.seriesUid].instances[p.sopUid].image
  }

  /** The images of one series, tagged with their paths. */
  method CollectSeries(pid: string, sid: string, uid: string, s: Series)
    returns (images: seq<Pixels>, ghost paths: seq<InstancePath>)
    ensures |images| == |paths| && Distinct(paths)
    ensures forall p :: p in paths <==>
              p.patientId == pid && p.studyUid == sid && p.seriesUid == uid && p.sopUid in s.instances
    ensures forall i :: 0 <= i < |paths| ==>
      && paths[i].sopUid in s.instances
      && images[i] == s.instances[paths[i].sopUid].image
  {
    images, paths := [], [];
    var todo := s.instances.Keys;
    while todo != {}
      invariant todo <= s.instances.Keys
      invariant |images| == |paths| && Distinct(paths)
      invariant forall p :: p in paths <==>
                  p.patientId == pid && p.studyUid == sid && p.seriesUid == uid
                  && p.sopUid in s.instances && p.sopUid !in todo
      invariant forall i :: 0 <= i < |paths| ==>
        && paths[i].sopUid in s.instances
        && images[i] == s.instances[paths[i].sopUid].image
      decreases todo
    {
      var sop :| sop in todo;
      images, paths := images + [s.instances[sop].image], paths + [InstancePath(pid, sid, uid, sop)];
      todo := todo - {sop};
    }
  }

  /** The images of one study, tagged with their paths. */
  method CollectStudy(pid: string, sid: string, st: Study)
    returns (images: seq<Pixels>, ghost paths: seq<InstancePath>)
    ensures |images| == |paths| && Distinct(paths)
    ensures forall p :: p in paths <==>
              p.patientId == pid && p.studyUid == sid && p.seriesUid in st.series
              && p.sopUid in st.series[p.seriesUid].instances
    ensures forall i :: 0 <= i < |paths| ==>
      && paths[i].seriesUid in st.series
      && paths[i].sopUid in st.series[paths[i].seriesUid].instances
      && images[i] == st.series[paths[i].seriesUid].instances[paths[i].sopUid].image
  {
    images, paths := [], [];
    var todo := st.series.Keys;
    while todo != {}
      invariant todo <= st.series.Keys
      invariant |images| == |paths| && Distinct(paths)
      invariant forall p :: p in paths <==>
                  p.patientId == pid && p.studyUid == sid && p.seriesUid in st.series
                  && p.sopUid in st.series[p.seriesUid].instances && p.seriesUid !in todo
      invariant forall i :: 0 <= i < |paths| ==>
        && paths[i].seriesUid in st.series
        && paths[i].sopUid in st.series[paths[i].seriesUid].instances
        && images[i] == st.series[paths[i].seriesUid].instances[paths[i].sopUid].image
      decreases todo
    {
      var uid :| uid in todo;
      var more; ghost var morePaths;
        more, morePaths := CollectSeries(pid, sid, uid, st.series[uid]);
      DistinctAppend(paths, morePaths);
      images, paths := images + more, paths + morePaths;
      todo := todo - {uid};
    }
  }

  /** The images of one patient, tagged with their paths. */
  method CollectPatient(pid: string, pt: Patient)
    returns (images: seq<Pixels>, ghost paths: seq<InstancePath>)
    ensures |images| == |paths| && Distinct(paths)
    ensures forall p :: p in paths <==>
              p.patientId == pid && p.studyUid in pt.studies
              && p.seriesUid in pt.studies[p.studyUid].series
              && p.sopUid in pt.studies[p.studyUid].series[p.seriesUid].instances
    ensures forall i :: 0 <= i < |paths| ==>
      && paths[i].studyUid in pt.studies
      && paths[i].seriesUid in pt.studies[paths[i].studyUid].series
      && paths[i].sopUid in pt.studies[paths[i].studyUid].series[paths[i].seriesUid].instances
      && images[i] == pt.studies[paths[i].studyUid].series[paths[i].seriesUid].instances[paths[i].sopUid].image
  {
    images, paths := [], [];
    var todo := pt.studies.Keys;
    while todo != {}
      invariant todo <= pt.studies.Keys
      invariant |images| == |paths| && Distinct(paths)
      invariant forall p :: p in paths <==>
                  p.patientId == pid && p.studyUid in pt.studies
                  && p.seriesUid in pt.studies[p.studyUid].series
                  && p.sopUid in pt.studies[p.studyUid].series[p.seriesUid].instances
                  && p.studyUid !in todo
      invariant forall i :: 0 <= i < |paths| ==>
        && paths[i].studyUid in pt.studies
        && paths[i].seriesUid in pt.studies[paths[i].studyUid].series
        && paths[i].sopUid in pt.studies[paths[i].studyUid].series[paths[i].seriesUid].instances
        && images[i] == pt.studies[paths[i].studyUid].series[paths[i].seriesUid].instances[paths[i].sopUid].image
      decreases todo
    {
      var sid :| sid in todo;
      var more; ghost var morePaths;
        more, morePaths := CollectStudy(pid, sid, pt.studies[sid]);
      DistinctAppend(paths, morePaths);
      images, paths := images + more, paths + morePaths;
      todo := todo - {sid};
    }
  }
}
