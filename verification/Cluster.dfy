/** The objects of one namespace as the API server holds them. */
module Cluster {
  import opened Generate

  datatype Kind = KServiceAccount | KRole | KRoleBinding | KService | KIngress | KJob | KDeployment

  datatype Ref = Ref(kind: Kind, name: string)

  function RefOf(o: Object): Ref {
    match o
    case ServiceAccount(name, _) => Ref(KServiceAccount, name)
    case Role(name, _) => Ref(KRole, name)
    case RoleBinding(name, _, _, _) => Ref(KRoleBinding, name)
    case Service(name, _, _, _, _, _) => Ref(KService, name)
    case Ingress(name, _, _, _, _) => Ref(KIngress, name)
    case Job(name, _, _, _, _, _) => Ref(KJob, name)
    case Deployment(name, _, _, _, _, _, _) => Ref(KDeployment, name)
  }

  function LabelsOf(o: Object): Labels {
    match o
    case Service(_, labels, _, _, _, _) => labels
    case Ingress(_, labels, _, _, _) => labels
    case Job(_, _, labels, _, _, _) => labels
    case Deployment(_, _, labels, _, _, _, _) => labels
    case _ => map[]
  }

  /** refused: the deletions that the server will not carry out; asked: those asked of it. */
  class Namespace {
    var objects: map<Ref, Labels>
    const refused: set<Ref>
    var asked: seq<Ref>

    constructor (objects: map<Ref, Labels>, refused: set<Ref>)
      ensures this.objects == objects && this.refused == refused && asked == []
    {
      this.objects, this.refused := objects, refused;
      asked := [];
    }

    method Delete(r: Ref)
      modifies this
      ensures objects == old(objects) - ({r} - refused)
      ensures asked == old(asked) + [r]
    {
      asked := asked + [r];
      if r !in refused {
        objects := objects - {r};
      }
      assert r in refused ==> old(objects) - ({r} - refused) == old(objects);
      assert r !in refused ==> {r} - refused == {r};
    }

    /** The objects of a kind that carry decco's label for app-derived objects. */
    function Labelled(kind: Kind): set<Ref>
      reads this
    {
      set r | r in objects && r.kind == kind && DERIVED_FROM in objects[r] && objects[r][DERIVED_FROM] == "app"
    }
  }
}
