/** Entries, constants and bucket choice of the address manager (src/addrman.h, src/protocol.h). */
module AddrTypes {

  const TRIED_BUCKET_COUNT := 64
  const TRIED_BUCKET_SIZE := 64
  const NEW_BUCKET_COUNT := 256
  const NEW_BUCKET_SIZE := 64
  const NEW_BUCKETS_PER_ADDRESS := 4
  const TRIED_ENTRIES_INSPECT_ON_EVICT := 4
  const HORIZON_DAYS := 30
  const RETRIES := 3
  const MAX_FAILURES := 10
  const MIN_FAIL_DAYS := 7
  const GETADDR_MAX_PCT := 23
  const GETADDR_MAX := 2500

  /** `CNetAddr`: the sixteen address bytes read as one number. */
  datatype NetAddr = NetAddr(ip: nat)

  /** `CService`: a network address and a port. */
  datatype Service = Service(net: NetAddr, port: nat)

  /** `CAddress`: what a peer advertises. */
  datatype Address = Address(service: Service, services: bv64, time: int)

  /** `CAddrInfo`: an address with the statistics and the index data kept about it. */
  datatype Info = Info(
    service: Service,
    services: bv64,
    time: int,
    source: NetAddr,
    lastSuccess: int,
    lastTry: int,
    attempts: int,
    refCount: int,
    inTried: bool,
    randomPos: int)

  /** The parts decided outside the manager: the keyed hashes behind the bucket choice and the routability test. */
  datatype Env = Env(
    triedHash: (seq<nat>, Service) -> nat,
    newHash: (seq<nat>, Service, NetAddr) -> nat,
    routable: NetAddr -> bool)

  function TriedBucket(env: Env, key: seq<nat>, service: Service): (b: int)
    ensures 0 <= b < TRIED_BUCKET_COUNT
  {
    env.triedHash(key, service) % TRIED_BUCKET_COUNT
  }

  function NewBucket(env: Env, key: seq<nat>, service: Service, source: NetAddr): (b: int)
    ensures 0 <= b < NEW_BUCKET_COUNT
  {
    env.newHash(key, service, source) % NEW_BUCKET_COUNT
  }

  /** Storing an `int64_t` into the 32-bit field `nTime`. */
  function ToUint32(x: int): (r: int)
    ensures 0 <= r < 0x1_0000_0000
    ensures 0 <= x < 0x1_0000_0000 ==> r == x
  {
    x % 0x1_0000_0000
  }

  function FreshInfo(addr: Address, source: NetAddr): (info: Info)
  {
    Info(addr.service, addr.services, addr.time, source, 0, 0, 0, 0, false, -1)
  }

  /** `CAddrInfo::IsTerrible`: bad enough to be deleted. */
  predicate IsTerrible(info: Info, now: int)
  {
    if info.lastTry != 0 && info.lastTry >= now - 60 then false
    else
      || info.time > now + 10 * 60
      || info.time == 0
      || now - info.time > HORIZON_DAYS * 86400
      || (info.lastSuccess == 0 && info.attempts >= RETRIES)
      || (now - info.lastSuccess > MIN_FAIL_DAYS * 86400 && info.attempts >= MAX_FAILURES)
  }

  function ToAddress(info: Info): (a: Address)
  {
    Address(info.service, info.services, info.time)
  }
}
