/** The module-level set and map of the font loader, changed in place by overlapping calls. */
module FontLoaderClass {
  import opened Wrappers
  import F = FontCache

  class FontLoader {
    var loadedFamilies: set<string>
    var inflight: map<string, nat>
    var loads: seq<F.Load>

    ghost function Model(): F.State
      reads this
    {
      F.State(loadedFamilies, inflight, loads)
    }

    ghost predicate Valid()
      reads this
    {
      F.Inv(Model())
    }

    constructor ()
      ensures Model() == F.EMPTY && Valid()
    {
      loadedFamilies, inflight, loads := {}, map[], [];
    }

    /** A call, up to its first await. `throws`: the fetch fails before it returns a promise. */
    method EnsureFamilyLoaded(family: string, throws: bool) returns (reply: F.Reply)
      requires Valid()
      modifies this
      ensures Model() == F.Apply(old(Model()), F.Calls(family, throws)) && Valid()
      ensures reply == F.ReplyOf(old(Model()), family)
      ensures reply.Later? ==> reply.load < |loads| && loads[reply.load].family == family
      ensures reply.Now? <==> family == "" || family in F.SKIP_FAMILIES || family in old(loadedFamilies)
      ensures |loads| > old(|loads|) <==> reply.Later? && family !in old(inflight)
    {
      F.StepKeeps(Model(), F.Calls(family, throws));
      if family == "" || family in F.SKIP_FAMILIES {
        return F.Now(true);
      }
      if family in loadedFamilies {
        return F.Now(true);
      }
      if family in inflight {
        return F.Later(inflight[family]);
      }
      reply := F.Later(|loads|);
      if throws {
        loads := loads + [F.Load(family, F.Over(F.Rejected), true)];
        inflight := inflight - {family};
      } else {
        loads := loads + [F.Load(family, F.Fetching, false)];
      }
      inflight := inflight[family := reply.load];
    }

    /** The load's own continuation after the fetch. */
    method FetchSettles(i: nat, faces: Option<nat>)
      requires Valid() && i < |loads| && loads[i].phase == F.Fetching
      modifies this
      ensures Model() == F.Apply(old(Model()), F.FetchSettles(i, faces)) && Valid()
    {
      F.StepKeeps(Model(), F.FetchSettles(i, faces));
      if faces.None? {
        Finish(i, F.Rejected);
      } else if faces.value == 0 {
        Finish(i, F.Resolved(false));
      } else {
        loads := loads[i := loads[i].(phase := F.Registering(faces.value, false))];
      }
    }

    method FaceSettles(i: nat, ok: bool)
      requires Valid() && i < |loads| && loads[i].phase.Registering?
      modifies this
      ensures old(loads[i].phase.left) > 0
      ensures Model() == F.Apply(old(Model()), F.FaceSettles(i, ok)) && Valid()
    {
      F.StepKeeps(Model(), F.FaceSettles(i, ok));
      var left, any := loads[i].phase.left - 1, loads[i].phase.any || ok;
      if left > 0 {
        loads := loads[i := loads[i].(phase := F.Registering(left, any))];
      } else if any {
        loads := loads[i := loads[i].(phase := F.Readying)];
      } else {
        Finish(i, F.Resolved(false));
      }
    }

    method ReadySettles(i: nat, ok: bool)
      requires Valid() && i < |loads| && loads[i].phase == F.Readying
      modifies this
      ensures Model() == F.Apply(old(Model()), F.ReadySettles(i, ok)) && Valid()
    {
      F.StepKeeps(Model(), F.ReadySettles(i, ok));
      Finish(i, if ok then F.Resolved(true) else F.Rejected);
    }

    /** The end of a load, with its `finally`. */
    method Finish(i: nat, result: F.Result)
      requires i < |loads|
      modifies this
      ensures Model() == F.End(old(Model()), i, result)
    {
      var family := loads[i].family;
      if result == F.Resolved(true) {
        loadedFamilies := loadedFamilies + {family};
      }
      loads := loads[i := loads[i].(phase := F.Over(result))];
      inflight := inflight - {family};
    }
  }
}
