/** The certificate and container objects themselves (pkg/ca/cert.go,
    pkg/ca/container.go), each method proved against its function in CertFile. */
module CertContainer {
  import opened PemBlock
  import opened CertFile

  /** The container's file system and the eBPF map of watched keys. */
  class Machine {
    var files: map<Path, string>
    var watched: set<Key>

    function View(): Host
      reads this
    {
      Host(files, watched)
    }
  }

  class InjectedCert {
    const location: Path
    const block: string
    const machine: Machine
    var installed: bool
    var createdFile: bool
    var processes: set<Pid>

    function View(): Cert
      reads this
    {
      Cert(installed, createdFile, processes)
    }

    constructor (location: Path, block: string, machine: Machine)
      ensures this.location == location && this.block == block && this.machine == machine && View() == NEW_CERT
    {
      this.location, this.block, this.machine := location, block, machine;
      installed, createdFile, processes := false, false, {};
    }

    method InstallFile()
      modifies this, machine
      ensures Outcome(machine.View(), View(), true) == Install(old(machine.View()), old(View()), location, block)
    {
      if installed {
        return;
      }
      if location !in machine.files {
        machine.files := machine.files[location := ""];
        createdFile := true;
      }
      machine.files := machine.files[location := machine.files[location] + block];
      installed := true;
    }

    method Inject(pid: Pid)
      modifies this, machine
      ensures Outcome(machine.View(), View(), true)
           == CertFile.Inject(old(machine.View()), old(View()), location, pid, block)
    {
      InstallFile();
      machine.watched := machine.watched + {KeyOf(pid, location)};
      processes := processes + {pid};
    }

    method RemoveNative()
      requires |block| > 0
      modifies machine
      ensures machine.View() == Restore(old(machine.View()), View(), location, block)
    {
      if location !in machine.files {
        return;
      }
      if createdFile {
        machine.files := machine.files - {location};
      } else {
        machine.files := machine.files[location := Without(machine.files[location], block)];
      }
    }

    method Remove(pid: Pid) returns (ok: bool)
      requires |block| > 0
      modifies this, machine
      ensures Outcome(machine.View(), View(), ok)
           == CertFile.Remove(old(machine.View()), old(View()), location, pid, block)
    {
      if pid !in processes {
        return true;
      }
      processes := processes - {pid};
      if KeyOf(pid, location) !in machine.watched {
        return false;
      }
      machine.watched := machine.watched - {KeyOf(pid, location)};
      if processes != {} || !installed {
        return true;
      }
      RemoveNative();
      return true;
    }

    /** RemoveAll, over the processes in the order the map yields them. */
    method RemoveAll(pids: seq<Pid>)
      requires |block| > 0
      modifies this, machine
      ensures var r := RemoveEach(old(machine.View()), old(View()), location, pids, block);
              machine.View() == r.host && View() == r.cert
    {
      ghost var goal := RemoveEach(machine.View(), View(), location, pids, block);
      for i := 0 to |pids|
        invariant RemoveEach(machine.View(), View(), location, pids[i..], block) == goal
      {
        assert pids[i..][1..] == pids[i + 1..];
        var ok := Remove(pids[i]);
        if !ok {
          return;
        }
      }
    }
  }

  class Container {
    const machine: Machine
    const block: string
    var certs: map<Path, InjectedCert>

    ghost predicate Valid()
      reads this, certs.Values
    {
      && |block| > 0
      && (forall path | path in certs ::
            certs[path].location == path && certs[path].block == block && certs[path].machine == machine)
    }

    ghost function View(): World
      reads this, machine, certs.Values
    {
      World(machine.View(), map path | path in certs :: certs[path].View())
    }

    constructor (machine: Machine, block: string)
      requires |block| > 0
      ensures Valid() && this.machine == machine && this.block == block && View() == World(machine.View(), map[])
    {
      this.machine, this.block, certs := machine, block, map[];
    }

    /** The certificate of a location, made if there is none yet. */
    method FindCert(path: Path) returns (cert: InjectedCert)
      requires Valid()
      modifies `certs
      ensures Valid() && path in certs && certs[path] == cert && certs == old(certs)[path := cert]
      ensures cert.View() == if path in old(certs) then old(certs[path].View()) else NEW_CERT
      ensures path in old(certs) ==> cert == old(certs)[path]
      ensures path !in old(certs) ==> fresh(cert)
    {
      if path in certs {
        cert := certs[path];
        assert certs == certs[path := cert];
      } else {
        cert := new InjectedCert(path, block, machine);
        certs := certs[path := cert];
      }
    }

    /** scanCertFile for one location. */
    method ScanCertFile(pid: Pid, path: Path)
      requires Valid()
      modifies this, machine, certs.Values
      ensures Valid() && View() == Started(old(View()), pid, path, block)
    {
      var cert := FindCert(path);
      cert.Inject(pid);
      assert View().certs == old(View()).certs[path := cert.View()];
    }

    /** One turn of RemoveProcess. */
    method RemoveFrom(pid: Pid, path: Path)
      requires Valid()
      modifies this, machine, certs.Values
      ensures Valid() && View() == StopOne(old(View()), pid, path, block) && certs.Values <= old(certs.Values)
    {
      if path in certs {
        var cert := certs[path];
        var _ := cert.Remove(pid);
        if cert.processes == {} {
          certs := certs - {path};
        }
      }
    }

    method RemoveProcess(pid: Pid, order: seq<Path>)
      requires Valid()
      modifies this, machine, certs.Values
      ensures Valid() && View() == StopAll(old(View()), pid, order, block)
    {
      ghost var goal := StopAll(View(), pid, order, block);
      for i := 0 to |order|
        invariant Valid() && certs.Values <= old(certs.Values)
        invariant StopAll(View(), pid, order[i..], block) == goal
      {
        assert order[i..][1..] == order[i + 1..];
        RemoveFrom(pid, order[i]);
      }
    }

    method CleanUpOne(path: Path, pids: seq<Pid>)
      requires Valid()
      modifies this, machine, certs.Values
      ensures Valid() && View() == CleanOne(old(View()), path, pids, block) && certs.Values <= old(certs.Values)
    {
      if path in certs {
        certs[path].RemoveAll(pids);
        certs := certs - {path};
      }
    }

    method Cleanup(order: seq<Path>, pids: map<Path, seq<Pid>>)
      requires Valid()
      modifies this, machine, certs.Values
      ensures Valid() && View() == CleanAll(old(View()), order, pids, block)
    {
      ghost var goal := CleanAll(View(), order, pids, block);
      for i := 0 to |order|
        invariant Valid() && certs.Values <= old(certs.Values)
        invariant CleanAll(View(), order[i..], pids, block) == goal
      {
        assert order[i..][1..] == order[i + 1..];
        CleanUpOne(order[i], if order[i] in pids then pids[order[i]] else []);
      }
    }
  }
}
